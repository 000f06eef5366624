/**
 Transactional policy reload (internal/policy/manager.go).

 `Manager.Apply` builds Redis clients and filters, reusing unchanged ones, and publishes the result or
 releases everything it made. Factories return fresh objects, and whether one fails is part of the
 input. Map iteration order is arbitrary, so every result holds for every order.
 */
module PolicyManager {
  import opened Basics
  import opened ChainRegistry
  import opened PolicyBuild

  /** The manager, its registry and the world's bookkeeping of created resources. */
  datatype World = World(
    redis: map<string, Entry>, filters: map<FilterKey, Instance>, open: bool,
    registry: Registry, nextId: nat, created: set<Resource>)

  function OwnedBy(w: World): set<Resource> {
    Owned(w.redis, w.filters)
  }

  function Current(w: World): Policy
    requires w.registry.snaps != []
  {
    w.registry.snaps[|w.registry.snaps| - 1].policy
  }

  /** A resource exists once: it is owned by the active policy, waiting to be closed, or closed. */
  ghost predicate Conserved(w: World, x: Resource) {
    (if x in w.created then 1 else 0) == (if x in OwnedBy(w) then 1 else 0) + Entrusted(w.registry, x)
  }

  /** A filter's key matches its definition and the active services, and so does its client if the key could tell. */
  ghost predicate Bound(k: FilterKey, f: Instance, redis: map<string, Entry>, n: nat) {
    && MadeAs(f, k)
    && k.entry == EntryOf(k.service, redis)
    && (f.client.Some? <==> RedisBacked(k.kind))
    && (f.client.Some? ==> f.client.value < n)
    && (RedisBacked(k.kind) && k.service.Text? ==> f.client == k.entry)
  }

  ghost predicate AllBound(w: World) {
    forall k | k in w.filters :: Bound(k, w.filters[k], w.redis, w.nextId)
  }

  /** What every operation keeps. */
  ghost predicate Inv(w: World) {
    && Below(w.created, w.nextId)
    && Injective(w.redis) && InjectiveFilters(w.filters)
    && OwnedBy(w) <= w.created
    && ChainRegistry.Valid(w.registry)
    && (forall x :: Conserved(w, x))
    && (w.open ==> Current(w).owned == OwnedBy(w))
    && AllBound(w)
  }

  /*** The operations as relations between worlds ***/

  /** A successful Apply. */
  ghost predicate Reloaded(w: World, cfg: Config, w': World) {
    && w.registry.snaps != [] && |w'.registry.snaps| == |w.registry.snaps| + 1
    && w.nextId <= w'.nextId
    && w'.redis.Keys == cfg.redis.Keys && RedisBuilt(w.redis, cfg.redis, w'.redis, w.nextId, w'.nextId)
    && FiltersBuilt(w.filters, w'.redis, w'.filters, w.nextId, w'.nextId)
    && Current(w').chains.Keys == cfg.chains.Keys && ChainsBuilt(cfg, w'.redis, w'.filters, Current(w').chains)
    && Current(w').owned == OwnedBy(w')
    && w'.created == w.created + FreshClients(w'.redis, w.nextId) + FreshFilters(w'.filters, w.nextId)
    && Lists(RetiredBy(w, w'), Dropped(w, w'))
    && w'.registry == Swap(w.registry, NewSnapshot(Current(w')), RetiredBy(w, w'))
    && w'.open
  }

  /** What the reload from `w` to `w'` attached to the snapshot it replaced. */
  function RetiredBy(w: World, w': World): seq<Resource>
    requires w.registry.snaps != [] && |w'.registry.snaps| > |w.registry.snaps|
  {
    w'.registry.snaps[|w.registry.snaps| - 1].cleanup
  }

  /** What the policy of `w` owns and the one of `w'` does not keep. */
  function Dropped(w: World, w': World): set<Resource> {
    DroppedFilters(w.filters, w'.filters, w.filters.Keys) + DroppedClients(w.redis, w'.redis, w.redis.Keys)
  }

  /** A failed Apply: the published state is untouched, and exactly what it created is closed. */
  ghost predicate Aborted(w: World, w': World) {
    && w'.redis == w.redis && w'.filters == w.filters && w'.open == w.open
    && w'.registry.snaps == w.registry.snaps
    && w.registry.closed <= w'.registry.closed
    && Grown(w.created, w.nextId, w'.created, w'.nextId, w'.registry.closed[|w.registry.closed|..])
  }

  /** Shutdown closes everything the active policy owns. */
  ghost predicate Shut(w: World, w': World) {
    && w'.redis == map[] && w'.filters == map[] && !w'.open
    && w'.nextId == w.nextId && w'.created == w.created
    && w'.registry.snaps == w.registry.snaps
    && w.registry.closed <= w'.registry.closed
    && Lists(w'.registry.closed[|w.registry.closed|..], OwnedBy(w))
  }

  /*** Lemmas for Apply ***/

  lemma OwnedIsBelow(w: World)
    requires Inv(w)
    ensures Below(w.created, w.nextId) && Injective(w.redis) && InjectiveFilters(w.filters)
    ensures EntriesBelow(w.redis, w.nextId) && FiltersBelow(w.filters, w.nextId) && ChainRegistry.Valid(w.registry)
  {
    forall n | n in w.redis ensures w.redis[n].id < w.nextId {
      assert Client(w.redis[n].id) in OwnedBy(w);
    }
    forall k | k in w.filters ensures w.filters[k].id < w.nextId {
      assert Filter(w.filters[k].id) in OwnedBy(w);
    }
  }

  lemma StillBelow(w: World, cfg: Config, nextRedis: map<string, Entry>, c1: set<Resource>, n1: nat,
                   made: seq<Resource>)
    requires FiltersBelow(w.filters, w.nextId)
    requires RedisProgress(w.redis, cfg.redis, nextRedis, w.created, w.nextId, c1, n1, made)
    ensures Below(c1, n1) && FiltersBelow(w.filters, n1)
  {
  }

  lemma AbortedAfterClients(w: World, cfg: Config, nextRedis: map<string, Entry>, made: seq<Resource>, w': World)
    requires RedisProgress(w.redis, cfg.redis, nextRedis, w.created, w.nextId, w'.created, w'.nextId, made)
    requires w' == w.(created := w'.created, nextId := w'.nextId,
                   registry := w.registry.(closed := w.registry.closed + made))
    ensures Aborted(w, w')
  {
    assert w'.registry.closed[|w.registry.closed|..] == made;
  }

  lemma GrownTwice(c0: set<Resource>, n0: nat, c1: set<Resource>, n1: nat, a: seq<Resource>, c2: set<Resource>,
                   n2: nat, b: seq<Resource>)
    requires Grown(c0, n0, c1, n1, a) && Grown(c1, n1, c2, n2, b)
    ensures Grown(c0, n0, c2, n2, b + a)
  {
  }

  lemma AbortedAfterFilters(w: World, cfg: Config, nextRedis: map<string, Entry>, madeClients: seq<Resource>,
                            c1: set<Resource>, n1: nat,
                            nextFilters: map<FilterKey, Instance>, madeFilters: seq<Resource>, w': World)
    requires RedisProgress(w.redis, cfg.redis, nextRedis, w.created, w.nextId, c1, n1, madeClients)
    requires FilterProgress(w.filters, nextRedis, nextFilters, c1, n1, w'.created, w'.nextId, madeFilters)
    requires w' == w.(created := w'.created, nextId := w'.nextId,
                   registry := w.registry.(closed := w.registry.closed + (madeFilters + madeClients)))
    ensures Aborted(w, w')
  {
    hide Grown;
    GrownTwice(w.created, w.nextId, c1, n1, madeClients, w'.created, w'.nextId, madeFilters);
    assert w'.registry.closed[|w.registry.closed|..] == madeFilters + madeClients;
  }

  /** Filters are either reused, and older than the reload, or newer than its clients. */
  lemma FreshFiltersSince(old': map<FilterKey, Instance>, redis: map<string, Entry>, next: map<FilterKey, Instance>,
                          n0: nat, n1: nat, n2: nat)
    requires FiltersBelow(old', n0) && n0 <= n1 && FiltersBuilt(old', redis, next, n1, n2)
    ensures FreshFilters(next, n0) == FreshFilters(next, n1)
    ensures FiltersBuilt(old', redis, next, n0, n2)
  {
    hide BoundWhenBuilt, EntryOf;
    forall k | k in next ensures next[k].id >= n0 <==> next[k].id >= n1 {
      assert FilterBuilt(old', redis, k, next[k], n1, n2);
    }
    forall x | x in FreshFilters(next, n0) ensures x in FreshFilters(next, n1) {
      var k :| k in next && next[k].id >= n0 && x == Filter(next[k].id);
    }
    forall k | k in next ensures FilterBuilt(old', redis, k, next[k], n0, n2) {
      assert FilterBuilt(old', redis, k, next[k], n1, n2);
    }
  }

  lemma RedisBuiltLater(old': map<string, Entry>, cfg: map<string, RedisConfig>, next: map<string, Entry>, n0: nat,
                        n1: nat, n2: nat)
    requires RedisBuilt(old', cfg, next, n0, n1) && n1 <= n2
    ensures RedisBuilt(old', cfg, next, n0, n2)
  {
    forall n | n in next ensures ServiceBuilt(old', cfg[n], n, next[n], n0, n2) {
      assert ServiceBuilt(old', cfg[n], n, next[n], n0, n1);
    }
  }

  lemma ReloadedAfterBuild(w: World, cfg: Config, madeClients: seq<Resource>, c1: set<Resource>, n1: nat,
                           madeFilters: seq<Resource>,
                           chains: map<string, seq<Link>>, retired: seq<Resource>, w': World)
    requires ChainRegistry.Valid(w.registry) && FiltersBelow(w.filters, w.nextId)
    requires RedisProgress(w.redis, cfg.redis, w'.redis, w.created, w.nextId, c1, n1, madeClients)
             && w'.redis.Keys == cfg.redis.Keys
    requires FilterProgress(w.filters, w'.redis, w'.filters, c1, n1, w'.created, w'.nextId, madeFilters)
    requires ChainsBuilt(cfg, w'.redis, w'.filters, chains) && chains.Keys == cfg.chains.Keys
    requires Lists(retired, Dropped(w, w'))
    requires w'.registry == Swap(w.registry, NewSnapshot(Policy(chains, OwnedBy(w'))), retired) && w'.open
    ensures Reloaded(w, cfg, w')
  {
    hide Grown, ChainsBuilt, RedisBuilt, FiltersBuilt, Lists, Dropped, FiltersBelow, FreshClients, FreshFilters,
      Owned, Below;
    NoShrink(w.created, w.nextId, c1, n1, madeClients);
    NoShrink(c1, n1, w'.created, w'.nextId, madeFilters);
    RedisBuiltLater(w.redis, cfg.redis, w'.redis, w.nextId, n1, w'.nextId);
    FreshFiltersSince(w.filters, w'.redis, w'.filters, w.nextId, n1, w'.nextId);
    assert RetiredBy(w, w') == retired;
    assert Current(w') == Policy(chains, OwnedBy(w'));
  }

  lemma EverythingDropped(w: World)
    ensures DroppedFilters(w.filters, map[], w.filters.Keys) + DroppedClients(w.redis, map[], w.redis.Keys)
            == OwnedBy(w)
  {
    assert DroppedFilters(w.filters, map[], w.filters.Keys) == set k | k in w.filters :: Filter(w.filters[k].id);
    assert DroppedClients(w.redis, map[], w.redis.Keys) == set n | n in w.redis :: Client(w.redis[n].id);
  }

  /** The manager object. */
  class Manager {
    const registry: SnapshotRegistry
    var redis: map<string, Entry>
    var filters: map<FilterKey, Instance>
    var open: bool
    var nextId: nat
    ghost var created: set<Resource>

    constructor (registry: SnapshotRegistry)
      ensures this.registry == registry && redis == map[] && filters == map[]
      ensures open && nextId == 0 && created == {}
    {
      this.registry := registry;
      redis, filters, open, nextId, created := map[], map[], true, 0, {};
    }

    ghost function View(): World
      reads this, registry
    {
      World(redis, filters, open, registry.state, nextId, created)
    }

    /** Step 1 of Apply: reuse unchanged services, dial the others. */
    method BuildRedis(cfg: map<string, RedisConfig>, faults: Faults)
      returns (ok: bool, next: map<string, Entry>, made: seq<Resource>)
      requires Below(created, nextId) && Injective(redis) && EntriesBelow(redis, nextId)
      modifies this`nextId, this`created
      ensures RedisProgress(redis, cfg, next, old(created), old(nextId), created, nextId, made)
      ensures ok ==> next.Keys == cfg.Keys
      ensures cfg.Keys !! faults.services ==> ok
    {
      hide RedisProgress, Injective, EntriesBelow, Below;
      ok, next, made := true, map[], [];
      NoProgress(redis, cfg, created, nextId);
      var todo := cfg.Keys;
      while todo != {}
        invariant todo <= cfg.Keys && next.Keys == cfg.Keys - todo
        invariant RedisProgress(redis, cfg, next, old(created), old(nextId), created, nextId, made)
        decreases todo
      {
        var name :| name in todo;
        todo := todo - {name};
        if name in redis && redis[name].cfg == cfg[name] {
          ReuseKeepsProgress(redis, cfg, next, old(created), old(nextId), created, nextId, made, name);
          next := next[name := redis[name]];
        } else if name in faults.services {
          return false, next, made;
        } else {
          DialKeepsProgress(redis, cfg, next, old(created), old(nextId), created, nextId, made, name);
          made := made + [Client(nextId)];
          created := created + {Client(nextId)};
          next := next[name := Entry(nextId, cfg[name])];
          nextId := nextId + 1;
        }
      }
    }

    /** The inner loop of step 2: one chain, sharing instances with `next0` and the active policy. */
    method BuildChain(cfgs: seq<FilterConfig>, nextRedis: map<string, Entry>, faults: Faults,
                      next0: map<FilterKey, Instance>, made0: seq<Resource>, ghost c0: set<Resource>, ghost n0: nat)
      returns (ok: bool, next: map<FilterKey, Instance>, links: seq<Link>, made: seq<Resource>)
      requires FilterProgress(filters, nextRedis, next0, c0, n0, created, nextId, made0)
      requires InjectiveFilters(filters) && FiltersBelow(filters, n0)
      modifies this`nextId, this`created
      ensures FilterProgress(filters, nextRedis, next, c0, n0, created, nextId, made)
      ensures Extends(next0, next)
      ensures forall k | k in next :: k in next0 || UsedBy(cfgs, nextRedis, k)
      ensures ok ==> ChainBuilt(cfgs, nextRedis, next, links)
      ensures NoFilterFaults(cfgs, nextRedis, faults) ==> ok
    {
      hide FilterProgress, InjectiveFilters, FiltersBelow, ChainBuilt, KeyOf;
      ok, next, links, made := true, next0, [], made0;
      assert ChainBuilt(cfgs[..0], nextRedis, next, links)
          by { EmptyChainBuilt(nextRedis, next); assert cfgs[..0] == []; }
      for i := 0 to |cfgs|
        invariant FilterProgress(filters, nextRedis, next, c0, n0, created, nextId, made)
        invariant Extends(next0, next)
        invariant forall k | k in next :: k in next0 || UsedBy(cfgs, nextRedis, k)
        invariant ChainBuilt(cfgs[..i], nextRedis, next, links)
      {
        var fc := cfgs[i];
        var key := KeyOf(fc, nextRedis);
        KeyIsCurrent(fc, nextRedis);
        ghost var before := next;
        var f;
        if key in next {
          f := next[key];
          assert next[key := f] == next;
        } else if key in filters {
          f := filters[key];
          ReuseFilterKeepsProgress(filters, nextRedis, next, c0, n0, created, nextId, made, key);
        } else {
          var service := ServiceName(fc.service);
          if fc in faults.filters || (RedisBacked(fc.kind) && service !in nextRedis) {
            return false, next, links, made;
          }
          var client := if RedisBacked(fc.kind) then Some(nextRedis[service].id) else None;
          f := Instance(nextId, fc.kind, fc.options, fc.service, client);
          BuildFilterKeepsProgress(filters, nextRedis, next, c0, n0, created, nextId, made, key, f);
          made := made + [Filter(nextId)];
          created := created + {Filter(nextId)};
          nextId := nextId + 1;
        }
        assert UsedBy(cfgs, nextRedis, key);
        next := next[key := f];
        ChainStaysBuilt(cfgs[..i], nextRedis, before, next, links);
        ChainGrows(cfgs[..i], nextRedis, next, links, fc);
        links := links + [Link(f, fc.audit)];
        assert cfgs[..i] + [fc] == cfgs[..i + 1];
      }
      assert cfgs[..|cfgs|] == cfgs;
    }

    /** Step 2 of Apply: compile every chain. */
    method BuildFilters(cfg: Config, nextRedis: map<string, Entry>, faults: Faults)
      returns (ok: bool, next: map<FilterKey, Instance>, chains: map<string, seq<Link>>, made: seq<Resource>)
      requires Below(created, nextId) && InjectiveFilters(filters) && FiltersBelow(filters, nextId)
      modifies this`nextId, this`created
      ensures FilterProgress(filters, nextRedis, next, old(created), old(nextId), created, nextId, made)
      ensures ChainsBuilt(cfg, nextRedis, next, chains)
      ensures ok ==> chains.Keys == cfg.chains.Keys
      ensures (forall c | c in cfg.chains :: NoFilterFaults(cfg.chains[c], nextRedis, faults)) ==> ok
    {
      hide FilterProgress, ChainsBuilt, ChainBuilt, UsedBy, NoFilterFaults, Extends, InjectiveFilters, FiltersBelow,
        Below;
      ok, next, chains, made := true, map[], map[], [];
      NoFilterProgress(filters, nextRedis, created, nextId);
      assert ChainsBuilt(cfg, nextRedis, next, chains) by { NoChainsBuilt(cfg, nextRedis); }
      var todo := cfg.chains.Keys;
      while todo != {}
        invariant todo <= cfg.chains.Keys && chains.Keys == cfg.chains.Keys - todo
        invariant FilterProgress(filters, nextRedis, next, old(created), old(nextId), created, nextId, made)
        invariant ChainsBuilt(cfg, nextRedis, next, chains)
        decreases todo
      {
        var name :| name in todo;
        todo := todo - {name};
        ghost var before := next;
        var links;
        ok, next, links, made := BuildChain(cfg.chains[name], nextRedis, faults, next, made, old(created), old(nextId));
        if !ok {
          assert ChainsBuilt(cfg, nextRedis, next, map[])
              by { OnlyFilters(cfg, nextRedis, before, next, chains, name); }
          return false, next, map[], made;
        }
        ChainsGrow(cfg, nextRedis, before, next, chains, name, links);
        chains := chains[name := links];
      }
    }

    /** Step 3 of Apply: what the new policy no longer uses. */
    method Retired(nextRedis: map<string, Entry>,
                   nextFilters: map<FilterKey, Instance>) returns (retired: seq<Resource>)
      requires Injective(redis) && InjectiveFilters(filters)
      ensures Lists(retired, DroppedFilters(filters, nextFilters, filters.Keys)
              + DroppedClients(redis, nextRedis, redis.Keys))
    {
      hide Lists, Injective, InjectiveFilters, DroppedFilters, DroppedClients;
      var fs: seq<Resource>, cs: seq<Resource> := [], [];
      NothingDropped(filters, nextFilters, redis, nextRedis);
      var keys := filters.Keys;
      while keys != {}
        invariant keys <= filters.Keys
        invariant Lists(fs, DroppedFilters(filters, nextFilters, filters.Keys - keys))
        decreases keys
      {
        var k :| k in keys;
        DropFilter(filters, nextFilters, filters.Keys - keys, k, fs);
        assert filters.Keys - keys + {k} == filters.Keys - (keys - {k});
        keys := keys - {k};
        if k !in nextFilters {
          fs := fs + [Filter(filters[k].id)];
        }
      }
      var names := redis.Keys;
      while names != {}
        invariant names <= redis.Keys
        invariant Lists(cs, DroppedClients(redis, nextRedis, redis.Keys - names))
        decreases names
      {
        var n :| n in names;
        DropClient(redis, nextRedis, redis.Keys - names, n, cs);
        assert redis.Keys - names + {n} == redis.Keys - (names - {n});
        names := names - {n};
        if !(n in nextRedis && nextRedis[n] == redis[n]) {
          cs := cs + [Client(redis[n].id)];
        }
      }
      assert filters.Keys - {} == filters.Keys && redis.Keys - {} == redis.Keys;
      DroppedDisjoint(filters, nextFilters, redis, nextRedis);
      ListsUnion(fs, DroppedFilters(filters, nextFilters, filters.Keys), cs,
          DroppedClients(redis, nextRedis, redis.Keys));
      retired := fs + cs;
    }

    /** Compiles cfg and, only if every part of it compiles, publishes it. */
    method Apply(cfg: Config, faults: Faults) returns (ok: bool)
      requires registry.Valid() && Inv(View())
      modifies this, registry
      ensures registry.Valid()
      ensures if ok then Reloaded(old(View()), cfg, View()) else Aborted(old(View()), View())
      ensures && cfg.redis.Keys !! faults.services
              && (forall c | c in cfg.chains :: forall i | 0 <= i < |cfg.chains[c]| ::
                  && cfg.chains[c][i] !in faults.filters
                  && (RedisBacked(cfg.chains[c][i].kind) ==> ServiceName(cfg.chains[c][i].service) in cfg.redis))
              ==> ok
    {
      hide Inv, RedisProgress, FilterProgress, ChainsBuilt, Injective, InjectiveFilters, Below, EntriesBelow,
        FiltersBelow;
      hide Owned, DroppedFilters, DroppedClients, Lists, Swap, Reloaded, Aborted, ChainRegistry.Valid;
      ghost var w := View();
      OwnedIsBelow(w);
      var nextRedis, madeClients;
      ok, nextRedis, madeClients := BuildRedis(cfg.redis, faults);
      if !ok {
        registry.Close(madeClients);
        AbortedAfterClients(w, cfg, nextRedis, madeClients, View());
        return;
      }
      var nextFilters, chains, madeFilters;
      StillBelow(w, cfg, nextRedis, created, nextId, madeClients);
      ghost var c1, n1 := created, nextId;
      ok, nextFilters, chains, madeFilters := BuildFilters(cfg, nextRedis, faults);
      if !ok {
        registry.Close(madeFilters + madeClients);
        AbortedAfterFilters(w, cfg, nextRedis, madeClients, c1, n1, nextFilters, madeFilters, View());
        return;
      }
      var retired := Retired(nextRedis, nextFilters);
      registry.SwapIn(NewSnapshot(Policy(chains, Owned(nextRedis, nextFilters))), retired);
      redis, filters, open := nextRedis, nextFilters, true;
      ReloadedAfterBuild(w, cfg, madeClients, c1, n1, madeFilters, chains, retired, View());
    }

    /** Releases every resource of the active policy. */
    method Close()
      requires registry.Valid() && Inv(View())
      modifies this, registry
      ensures registry.Valid() && Shut(old(View()), View())
    {
      hide Inv, Injective, InjectiveFilters, Owned, DroppedFilters, DroppedClients, Lists;
      ghost var w := View();
      OwnedIsBelow(w);
      EverythingDropped(w);
      var all := Retired(map[], map[]);
      registry.Close(all);
      redis, filters, open := map[], map[], false;
      assert registry.state.closed[|w.registry.closed|..] == all;
    }
  }
}
