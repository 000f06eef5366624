/**
 What building a new policy means (internal/policy/manager.go): which Redis services and filters are
 reused, what is made and what is retired. The Manager's loops are proved against these predicates.
 */
module PolicyBuild {
  import opened Basics
  import opened ChainRegistry

  /** A service's settings, compared as a whole. */
  datatype RedisConfig = RedisConfig(settings: string)

  datatype FilterConfig = FilterConfig(kind: string, options: string, service: ServiceOption, audit: bool)

  datatype Config = Config(redis: map<string, RedisConfig>, chains: map<string, seq<FilterConfig>>)

  /** A Redis service in use; `id` identifies both the entry and its client. */
  datatype Entry = Entry(id: nat, cfg: RedisConfig)

  /** What identifies a filter definition across reloads. */
  datatype FilterKey = FilterKey(kind: string, options: string, service: ServiceOption, entry: Option<nat>)

  /** Services that cannot be dialled and filters that do not compile. */
  datatype Faults = Faults(services: set<string>, filters: set<FilterConfig>)

  const REDIS_BACKED := {"api_key", "redis_metadata_enricher", "embedded_rate_limiter"}

  predicate RedisBacked(kind: string) {
    kind in REDIS_BACKED
  }

  /** The service name a filter factory decodes from the option. */
  function ServiceName(o: ServiceOption): string {
    match o
    case Absent => ""
    case Text(s) => s
    case Scalar(s) => s
  }

  /** Only a string-typed service contributes its entry to the key. */
  function EntryOf(o: ServiceOption, redis: map<string, Entry>): Option<nat> {
    if o.Text? && o.text in redis then Some(redis[o.text].id) else None
  }

  function KeyOf(fc: FilterConfig, redis: map<string, Entry>): FilterKey {
    FilterKey(fc.kind, fc.options, fc.service, EntryOf(fc.service, redis))
  }

  /** Everything a policy with these services and filters owns. */
  function Owned(redis: map<string, Entry>, filters: map<FilterKey, Instance>): set<Resource> {
    (set n | n in redis :: Client(redis[n].id)) + (set k | k in filters :: Filter(filters[k].id))
  }

  /*** Building ***/

  /** `made` lists, once each, the resources created while the id counter moved from `n0` to `n1`. */
  ghost predicate Grown(c0: set<Resource>, n0: nat, c1: set<Resource>, n1: nat, made: seq<Resource>) {
    && n0 <= n1 && c0 <= c1
    && (forall x | x in c1 && x !in c0 :: n0 <= x.id < n1)
    && (forall x :: multiset(made)[x] == if x in c1 && x !in c0 then 1 else 0)
  }

  ghost predicate Below(c: set<Resource>, n: nat) {
    forall x | x in c :: x.id < n
  }

  lemma GrownByOne(c0: set<Resource>, n0: nat, c1: set<Resource>, n1: nat, made: seq<Resource>, x: Resource)
    requires Grown(c0, n0, c1, n1, made) && Below(c1, n1) && x.id == n1
    ensures Grown(c0, n0, c1 + {x}, n1 + 1, made + [x]) && Below(c1 + {x}, n1 + 1)
  {
  }

  /** A service is reused exactly when its configuration is unchanged, and freshly dialled otherwise. */
  ghost predicate ServiceBuilt(old': map<string, Entry>, cfg: RedisConfig, name: string, e: Entry, n0: nat, n1: nat) {
    && e.cfg == cfg
    && if name in old' && old'[name].cfg == cfg then e == old'[name] else n0 <= e.id < n1
  }

  ghost predicate Injective(redis: map<string, Entry>) {
    forall a, b | a in redis && b in redis && redis[a].id == redis[b].id :: a == b
  }

  ghost predicate RedisBuilt(old': map<string, Entry>, cfg: map<string, RedisConfig>, next: map<string, Entry>,
                             n0: nat, n1: nat) {
    && next.Keys <= cfg.Keys
    && (forall n | n in next :: ServiceBuilt(old', cfg[n], n, next[n], n0, n1))
    && Injective(next)
  }

  function FreshClients(next: map<string, Entry>, n0: nat): set<Resource> {
    set n | n in next && next[n].id >= n0 :: Client(next[n].id)
  }

  lemma FreshClientsAdd(next: map<string, Entry>, name: string, e: Entry, n0: nat)
    requires name !in next
    ensures e.id >= n0 ==> FreshClients(next[name := e], n0) == FreshClients(next, n0) + {Client(e.id)}
    ensures e.id < n0 ==> FreshClients(next[name := e], n0) == FreshClients(next, n0)
  {
    var next' := next[name := e];
    forall x | x in FreshClients(next, n0) ensures x in FreshClients(next', n0) {
      var n :| n in next && next[n].id >= n0 && x == Client(next[n].id);
      assert n in next' && next'[n] == next[n];
    }
    if e.id >= n0 {
      assert name in next' && next'[name] == e;
    }
  }

  /** How far step 1 of Apply has come: services in `next` are built, their new clients are `made`. */
  ghost predicate RedisProgress(old': map<string, Entry>, cfg: map<string, RedisConfig>, next: map<string, Entry>,
                                c0: set<Resource>, n0: nat, c1: set<Resource>, n1: nat, made: seq<Resource>) {
    && Grown(c0, n0, c1, n1, made) && Below(c1, n1)
    && RedisBuilt(old', cfg, next, n0, n1)
    && c1 == c0 + FreshClients(next, n0)
  }

  ghost predicate EntriesBelow(redis: map<string, Entry>, n: nat) {
    forall s | s in redis :: redis[s].id < n
  }

  lemma ReuseKeepsProgress(old': map<string, Entry>, cfg: map<string, RedisConfig>, next: map<string, Entry>,
                           c0: set<Resource>, n0: nat, c1: set<Resource>, n1: nat, made: seq<Resource>, name: string)
    requires RedisProgress(old', cfg, next, c0, n0, c1, n1, made) && Injective(old') && EntriesBelow(old', n0)
    requires name in cfg && name !in next && name in old' && old'[name].cfg == cfg[name]
    ensures RedisProgress(old', cfg, next[name := old'[name]], c0, n0, c1, n1, made)
  {
    hide Grown, Below, FreshClients;
    var next' := next[name := old'[name]];
    FreshClientsAdd(next, name, old'[name], n0);
    forall a | a in next && next[a].id == old'[name].id ensures a == name {
      assert ServiceBuilt(old', cfg[a], a, next[a], n0, n1);
    }
  }

  lemma DialKeepsProgress(old': map<string, Entry>, cfg: map<string, RedisConfig>, next: map<string, Entry>,
                          c0: set<Resource>, n0: nat, c1: set<Resource>, n1: nat, made: seq<Resource>, name: string)
    requires RedisProgress(old', cfg, next, c0, n0, c1, n1, made) && EntriesBelow(old', n0)
    requires name in cfg && name !in next && !(name in old' && old'[name].cfg == cfg[name])
    ensures RedisProgress(old', cfg, next[name := Entry(n1, cfg[name])], c0, n0, c1 + {Client(n1)}, n1 + 1,
                          made + [Client(n1)])
  {
    hide Grown, Below, FreshClients;
    GrownByOne(c0, n0, c1, n1, made, Client(n1));
    NoShrink(c0, n0, c1, n1, made);
    FreshClientsAdd(next, name, Entry(n1, cfg[name]), n0);
    assert c1 + {Client(n1)} == c0 + (FreshClients(next, n0) + {Client(n1)});
    forall a | a in next ensures next[a].id < n1 {
      assert ServiceBuilt(old', cfg[a], a, next[a], n0, n1);
    }
  }

  lemma NoProgress(old': map<string, Entry>, cfg: map<string, RedisConfig>, c0: set<Resource>, n0: nat)
    requires Below(c0, n0)
    ensures RedisProgress(old', cfg, map[], c0, n0, c0, n0, [])
  {
    assert FreshClients(map[], n0) == {};
  }

  lemma NoShrink(c0: set<Resource>, n0: nat, c1: set<Resource>, n1: nat, made: seq<Resource>)
    requires Grown(c0, n0, c1, n1, made)
    ensures n0 <= n1
  {
  }

  /*** Filters ***/

  ghost predicate InjectiveFilters(filters: map<FilterKey, Instance>) {
    forall a, b | a in filters && b in filters && filters[a].id == filters[b].id :: a == b
  }

  ghost predicate FiltersBelow(filters: map<FilterKey, Instance>, n: nat) {
    forall k | k in filters :: filters[k].id < n
  }

  /** The filter was made from the definition with this key. */
  ghost predicate MadeAs(f: Instance, k: FilterKey) {
    f.kind == k.kind && f.options == k.options && f.service == k.service
  }

  /** What the factory makes of a definition, given the services of the new policy. */
  ghost predicate BoundWhenBuilt(k: FilterKey, f: Instance, redis: map<string, Entry>) {
    MadeAs(f, k) &&
    if RedisBacked(k.kind) then
      ServiceName(k.service) in redis && f.client == Some(redis[ServiceName(k.service)].id)
    else
      f.client == None
  }

  /** A filter with the same key is reused; any other is built against the new services. */
  ghost predicate FilterBuilt(old': map<FilterKey, Instance>, redis: map<string, Entry>, k: FilterKey, f: Instance,
                              n0: nat, n1: nat) {
    && k.entry == EntryOf(k.service, redis)
    && if k in old' then f == old'[k] else n0 <= f.id < n1 && BoundWhenBuilt(k, f, redis)
  }

  ghost predicate FiltersBuilt(old': map<FilterKey, Instance>, redis: map<string, Entry>,
                               next: map<FilterKey, Instance>, n0: nat, n1: nat) {
    && (forall k | k in next :: FilterBuilt(old', redis, k, next[k], n0, n1))
    && InjectiveFilters(next)
  }

  function FreshFilters(next: map<FilterKey, Instance>, n0: nat): set<Resource> {
    set k | k in next && next[k].id >= n0 :: Filter(next[k].id)
  }

  lemma FreshFiltersAdd(next: map<FilterKey, Instance>, key: FilterKey, f: Instance, n0: nat)
    requires key !in next
    ensures f.id >= n0 ==> FreshFilters(next[key := f], n0) == FreshFilters(next, n0) + {Filter(f.id)}
    ensures f.id < n0 ==> FreshFilters(next[key := f], n0) == FreshFilters(next, n0)
  {
    var next' := next[key := f];
    forall x | x in FreshFilters(next, n0) ensures x in FreshFilters(next', n0) {
      var k :| k in next && next[k].id >= n0 && x == Filter(next[k].id);
      assert k in next' && next'[k] == next[k];
    }
    if f.id >= n0 {
      assert key in next' && next'[key] == f;
    }
  }

  /** How far step 2 of Apply has come. */
  ghost predicate FilterProgress(old': map<FilterKey, Instance>, redis: map<string, Entry>,
                                 next: map<FilterKey, Instance>,
                                 c0: set<Resource>, n0: nat, c1: set<Resource>, n1: nat, made: seq<Resource>) {
    && Grown(c0, n0, c1, n1, made) && Below(c1, n1)
    && FiltersBuilt(old', redis, next, n0, n1)
    && c1 == c0 + FreshFilters(next, n0)
  }

  lemma NoFilterProgress(old': map<FilterKey, Instance>, redis: map<string, Entry>, c0: set<Resource>, n0: nat)
    requires Below(c0, n0)
    ensures FilterProgress(old', redis, map[], c0, n0, c0, n0, [])
  {
    assert FreshFilters(map[], n0) == {};
  }

  lemma ReuseFilterKeepsProgress(old': map<FilterKey, Instance>, redis: map<string, Entry>,
                                 next: map<FilterKey, Instance>,
                                 c0: set<Resource>, n0: nat, c1: set<Resource>, n1: nat, made: seq<Resource>,
                                 k: FilterKey)
    requires FilterProgress(old', redis, next, c0, n0, c1, n1, made) && InjectiveFilters(old') && FiltersBelow(old', n0)
    requires k !in next && k in old' && k.entry == EntryOf(k.service, redis)
    ensures FilterProgress(old', redis, next[k := old'[k]], c0, n0, c1, n1, made)
  {
    hide Grown, Below, FreshFilters, BoundWhenBuilt, EntryOf;
    FreshFiltersAdd(next, k, old'[k], n0);
    forall a | a in next && next[a].id == old'[k].id ensures a == k {
      assert FilterBuilt(old', redis, a, next[a], n0, n1);
    }
  }

  lemma BuildFilterKeepsProgress(old': map<FilterKey, Instance>, redis: map<string, Entry>,
                                 next: map<FilterKey, Instance>,
                                 c0: set<Resource>, n0: nat, c1: set<Resource>, n1: nat, made: seq<Resource>,
                                 k: FilterKey, f: Instance)
    requires FilterProgress(old', redis, next, c0, n0, c1, n1, made) && FiltersBelow(old', n0)
    requires k !in next && k !in old' && k.entry == EntryOf(k.service, redis)
    requires f.id == n1 && BoundWhenBuilt(k, f, redis)
    ensures FilterProgress(old', redis, next[k := f], c0, n0, c1 + {Filter(n1)}, n1 + 1, made + [Filter(n1)])
  {
    hide Grown, Below, FreshFilters, BoundWhenBuilt, EntryOf;
    GrownByOne(c0, n0, c1, n1, made, Filter(n1));
    NoShrink(c0, n0, c1, n1, made);
    FreshFiltersAdd(next, k, f, n0);
    assert c1 + {Filter(n1)} == c0 + (FreshFilters(next, n0) + {Filter(n1)});
    forall a | a in next ensures next[a].id < n1 {
      assert FilterBuilt(old', redis, a, next[a], n0, n1);
    }
  }

  /*** Chains ***/

  /** Each position of a compiled chain is the instance of its definition's key. */
  ghost predicate ChainBuilt(cfgs: seq<FilterConfig>, redis: map<string, Entry>, filters: map<FilterKey, Instance>,
                             links: seq<Link>) {
    && |links| == |cfgs|
    && forall i | 0 <= i < |cfgs| ::
         var k := KeyOf(cfgs[i], redis);
         k in filters && links[i] == Link(filters[k], cfgs[i].audit)
  }

  /** `b` extends `a` without changing it. */
  ghost predicate Extends(a: map<FilterKey, Instance>, b: map<FilterKey, Instance>) {
    forall k | k in a :: k in b && b[k] == a[k]
  }

  lemma ChainStaysBuilt(cfgs: seq<FilterConfig>, redis: map<string, Entry>, a: map<FilterKey, Instance>,
                        b: map<FilterKey, Instance>, links: seq<Link>)
    requires ChainBuilt(cfgs, redis, a, links) && Extends(a, b)
    ensures ChainBuilt(cfgs, redis, b, links)
  {
  }

  lemma ChainGrows(cfgs: seq<FilterConfig>, redis: map<string, Entry>, filters: map<FilterKey, Instance>,
                   links: seq<Link>, fc: FilterConfig)
    requires ChainBuilt(cfgs, redis, filters, links) && KeyOf(fc, redis) in filters
    ensures ChainBuilt(cfgs + [fc], redis, filters, links + [Link(filters[KeyOf(fc, redis)], fc.audit)])
  {
  }

  lemma EmptyChainBuilt(redis: map<string, Entry>, filters: map<FilterKey, Instance>)
    ensures ChainBuilt([], redis, filters, [])
  {
  }

  lemma KeyIsCurrent(fc: FilterConfig, redis: map<string, Entry>)
    ensures var k := KeyOf(fc, redis);
            && k.entry == EntryOf(k.service, redis)
            && k.service == fc.service && k.kind == fc.kind && k.options == fc.options
  {
  }

  ghost predicate UsedBy(cfgs: seq<FilterConfig>, redis: map<string, Entry>, k: FilterKey) {
    exists i | 0 <= i < |cfgs| :: KeyOf(cfgs[i], redis) == k
  }

  ghost predicate NoFilterFaults(cfgs: seq<FilterConfig>, redis: map<string, Entry>, faults: Faults) {
    forall i | 0 <= i < |cfgs| ::
      cfgs[i] !in faults.filters && (RedisBacked(cfgs[i].kind) ==> ServiceName(cfgs[i].service) in redis)
  }

  ghost predicate ChainsBuilt(cfg: Config, redis: map<string, Entry>, filters: map<FilterKey, Instance>,
                              chains: map<string, seq<Link>>) {
    && chains.Keys <= cfg.chains.Keys
    && (forall c | c in chains :: ChainBuilt(cfg.chains[c], redis, filters, chains[c]))
    && (forall k | k in filters :: exists c | c in cfg.chains :: UsedBy(cfg.chains[c], redis, k))
  }

  lemma ChainsGrow(cfg: Config, redis: map<string, Entry>, before: map<FilterKey, Instance>,
                   after: map<FilterKey, Instance>,
                   chains: map<string, seq<Link>>, c: string, links: seq<Link>)
    requires ChainsBuilt(cfg, redis, before, chains) && Extends(before, after)
    requires c in cfg.chains && ChainBuilt(cfg.chains[c], redis, after, links)
    requires forall k | k in after :: k in before || UsedBy(cfg.chains[c], redis, k)
    ensures ChainsBuilt(cfg, redis, after, chains[c := links])
  {
    hide UsedBy, ChainBuilt;
    forall d | d in chains ensures ChainBuilt(cfg.chains[d], redis, after, chains[d]) {
      ChainStaysBuilt(cfg.chains[d], redis, before, after, chains[d]);
    }
  }

  /*** Retirement ***/

  /** `xs` holds each element of `s` once and nothing else. */
  ghost predicate Lists(xs: seq<Resource>, s: set<Resource>) {
    forall x :: multiset(xs)[x] == if x in s then 1 else 0
  }

  lemma ListsAdd(xs: seq<Resource>, s: set<Resource>, x: Resource)
    requires Lists(xs, s) && x !in s
    ensures Lists(xs + [x], s + {x})
  {
  }

  lemma ListsUnion(xs: seq<Resource>, s: set<Resource>, ys: seq<Resource>, t: set<Resource>)
    requires Lists(xs, s) && Lists(ys, t) && s !! t
    ensures Lists(xs + ys, s + t)
  {
  }

  /** The filters among `done` that the next policy does not keep. */
  function DroppedFilters(filters: map<FilterKey, Instance>, next: map<FilterKey, Instance>,
                          done: set<FilterKey>): set<Resource> {
    set k | k in done && k in filters && k !in next :: Filter(filters[k].id)
  }

  /** The clients of services among `done` that the next policy does not keep. */
  function DroppedClients(redis: map<string, Entry>, next: map<string, Entry>, done: set<string>): set<Resource> {
    set n | n in done && n in redis && !(n in next && next[n] == redis[n]) :: Client(redis[n].id)
  }

  lemma DropFilter(filters: map<FilterKey, Instance>, next: map<FilterKey, Instance>, done: set<FilterKey>,
                   k: FilterKey, xs: seq<Resource>)
    requires InjectiveFilters(filters) && k in filters && k !in done && Lists(xs, DroppedFilters(filters, next, done))
    ensures Lists(if k in next then xs else xs + [Filter(filters[k].id)], DroppedFilters(filters, next, done + {k}))
  {
    var before, after := DroppedFilters(filters, next, done), DroppedFilters(filters, next, done + {k});
    if k in next {
      assert after == before;
    } else {
      assert Filter(filters[k].id) !in before;
      assert k in done + {k};
      assert after == before + {Filter(filters[k].id)};
      ListsAdd(xs, before, Filter(filters[k].id));
    }
  }

  lemma DropClient(redis: map<string, Entry>, next: map<string, Entry>, done: set<string>, n: string, xs: seq<Resource>)
    requires Injective(redis) && n in redis && n !in done && Lists(xs, DroppedClients(redis, next, done))
    ensures Lists(if n in next && next[n] == redis[n] then xs
            else xs + [Client(redis[n].id)], DroppedClients(redis, next, done + {n}))
  {
    var before, after := DroppedClients(redis, next, done), DroppedClients(redis, next, done + {n});
    if n in next && next[n] == redis[n] {
      assert after == before;
    } else {
      assert Client(redis[n].id) !in before;
      assert n in done + {n};
      assert after == before + {Client(redis[n].id)};
      ListsAdd(xs, before, Client(redis[n].id));
    }
  }

  lemma NothingDropped(filters: map<FilterKey, Instance>, nextFilters: map<FilterKey, Instance>,
                       redis: map<string, Entry>, nextRedis: map<string, Entry>)
    ensures Lists([], DroppedFilters(filters, nextFilters, filters.Keys - filters.Keys))
    ensures Lists([], DroppedClients(redis, nextRedis, redis.Keys - redis.Keys))
  {
  }

  lemma DroppedDisjoint(filters: map<FilterKey, Instance>, nextFilters: map<FilterKey, Instance>,
                        redis: map<string, Entry>, nextRedis: map<string, Entry>)
    ensures DroppedFilters(filters, nextFilters, filters.Keys) !! DroppedClients(redis, nextRedis, redis.Keys)
  {
  }

  lemma NoChainsBuilt(cfg: Config, redis: map<string, Entry>)
    ensures ChainsBuilt(cfg, redis, map[], map[])
  {
  }

  lemma OnlyFilters(cfg: Config, redis: map<string, Entry>, before: map<FilterKey, Instance>,
                    after: map<FilterKey, Instance>,
                    chains: map<string, seq<Link>>, c: string)
    requires ChainsBuilt(cfg, redis, before, chains) && c in cfg.chains
    requires forall k | k in after :: k in before || UsedBy(cfg.chains[c], redis, k)
    ensures ChainsBuilt(cfg, redis, after, map[])
  {
    hide UsedBy, ChainBuilt;
  }
}
