/**
 From HyperChains, HyperRoutes and a HyperConfig to an engine config
 (hyper-operator/internal/controller/hyperchain_master_compiler.go, internal/config/parser.go).

 Whatever is missing or does not compile becomes a chain that denies every request. The result always passes
 the engine's validation, and the engine then routes every request to the target of a valid matching HyperRoute of
 the highest priority.
 */
module RouteCompiler {
  import opened Basics
  import opened Selectors
  import opened Router
  import opened RouteRules

  /*** Cluster objects ***/

  datatype FilterReference = FilterReference(kind: string, name: string, audit: Option<bool>)

  datatype LimitAction = Unset | Deny | Allow

  datatype HyperChain = HyperChain(
    name: string, filters: seq<FilterReference>, auditMode: bool, timeout: string, maxConcurrency: nat,
    onTimeout: LimitAction, onOverload: LimitAction)

  datatype HyperRoute = HyperRoute(name: string, priority: int, targetPolicy: string, matches: seq<MatchRule>)

  /** The fallbacks of a HyperConfig, an empty name being none, and whether unknown callers go on. */
  datatype HyperConfig = HyperConfig(defaultChain: string, northSouth: string, eastWest: string, admitUnknown: bool)

  /** Filter options as an engine reads them. */
  datatype Options = DenyWith(status: nat, body: string) | Spec(text: string)

  /** The filter objects of the cluster, by kind and name. */
  type Catalog = map<(string, string), Options>

  /** Durations, as the time library parses them. */
  type Durations = string -> Option<int>

  /*** Engine config ***/

  datatype FilterConfig = FilterConfig(name: string, audit: bool, type': string, options: Options)

  type Chain = seq<FilterConfig>

  datatype ChainSettings = ChainSettings(timeout: string, maxConcurrency: int, onTimeout: string, onOverload: string)

  datatype RawRoute = RawRoute(name: string, targetChain: string, matches: seq<RawMatch>)

  datatype EngineConfig = EngineConfig(
    chains: map<string, Chain>, settings: map<string, ChainSettings>, routes: seq<RawRoute>,
    defaultChain: string, other: string, northSouth: string, eastWest: string, admitUnknown: bool)

  /** Rejects every request. */
  const DEGRADED: Chain := [FilterConfig("", false, "deny", DenyWith(503, "Service Unavailable"))]

  function TypeOf(kind: string): Option<string> {
    match kind
    case "RateLimitFilter" => Some("embedded_rate_limiter")
    case "HeaderModifierFilter" => Some("header_modifier")
    case "DenyFilter" => Some("deny")
    case "CorrelationIdFilter" => Some("correlation_id")
    case "RedisMetadataEnricherFilter" => Some("redis_metadata_enricher")
    case "ApiKeyFilter" => Some("api_key")
    case "ExternalAuthFilter" => Some("external_auth")
    case "FirewallFilter" => Some("firewall")
    case "JwtAuthFilter" => Some("jwt_auth")
    case "CorsFilter" => Some("cors")
    case _ => None
  }

  /*** Chains ***/

  predicate Resolves(catalog: Catalog, ref: FilterReference) {
    TypeOf(ref.kind).Some? && (ref.kind, ref.name) in catalog
  }

  predicate GoodTimeout(durations: Durations, timeout: string) {
    timeout == "" || (durations(timeout).Some? && durations(timeout).value > 0)
  }

  /** A chain compiles if all its filters exist and its limits make sense. */
  predicate Compiles(catalog: Catalog, durations: Durations, c: HyperChain) {
    (forall ref | ref in c.filters :: Resolves(catalog, ref)) && GoodTimeout(durations, c.timeout)
  }

  /** The reference's own setting wins over the chain's mode. */
  function FilterAudited(c: HyperChain, ref: FilterReference): bool {
    if ref.audit.Some? then ref.audit.value else c.auditMode
  }

  function FilterOf(catalog: Catalog, c: HyperChain, ref: FilterReference): FilterConfig
    requires Resolves(catalog, ref)
  {
    FilterConfig(ref.kind + "/" + ref.name, FilterAudited(c, ref), TypeOf(ref.kind).value,
        catalog[(ref.kind, ref.name)])
  }

  function ActionOf(a: LimitAction): string {
    if a == Allow then "allow" else "deny"
  }

  predicate HasLimits(c: HyperChain) {
    c.timeout != "" || c.maxConcurrency != 0
  }

  function SettingsOf(c: HyperChain): ChainSettings {
    ChainSettings(c.timeout, c.maxConcurrency, ActionOf(c.onTimeout), ActionOf(c.onOverload))
  }

  /** The compiled chain holds the filters in order. */
  ghost predicate IsCompiled(catalog: Catalog, c: HyperChain, chain: Chain) {
    && |chain| == |c.filters|
    && forall i | 0 <= i < |chain| :: Resolves(catalog, c.filters[i]) && chain[i] == FilterOf(catalog, c, c.filters[i])
  }

  method CompileChain(catalog: Catalog, durations: Durations, c: HyperChain)
      returns (chain: Option<Chain>, limits: Option<ChainSettings>)
    ensures chain.Some? <==> Compiles(catalog, durations, c)
    ensures chain.Some? ==> IsCompiled(catalog, c, chain.value)
    ensures limits == if chain.Some? && HasLimits(c) then Some(SettingsOf(c)) else None
  {
    hide TypeOf;
    var out: Chain := [];
    for i := 0 to |c.filters|
      invariant |out| == i
      invariant forall j | 0 <= j < i :: Resolves(catalog, c.filters[j]) && out[j] == FilterOf(catalog, c, c.filters[j])
    {
      var ref := c.filters[i];
      assert ref in c.filters;
      if TypeOf(ref.kind).None? || (ref.kind, ref.name) !in catalog {
        return None, None;
      }
      out := out + [FilterOf(catalog, c, ref)];
    }
    if !HasLimits(c) {
      return Some(out), None;
    }
    if c.timeout != "" {
      var d := durations(c.timeout);
      if d.None? || d.value <= 0 {
        return None, None;
      }
    }
    return Some(out), Some(SettingsOf(c));
  }

  ghost predicate UniqueNames(chains: seq<HyperChain>) {
    forall i, j | 0 <= i < j < |chains| :: chains[i].name != chains[j].name
  }

  /** Every HyperChain is there, compiled or degraded, and nothing else; limits exactly where a chain sets some. */
  ghost predicate ChainsOf(
    catalog: Catalog, durations: Durations, list: seq<HyperChain>, chains: map<string, Chain>,
    limits: map<string, ChainSettings>)
  {
    && (forall c | c in list ::
          && c.name in chains
          && if Compiles(catalog, durations, c) then IsCompiled(catalog, c, chains[c.name])
             else chains[c.name] == DEGRADED)
    && (forall n | n in chains :: exists c | c in list :: c.name == n)
    && (forall n | n in limits :: exists c | c in list ::
          c.name == n && Compiles(catalog, durations, c) && limits[n] == SettingsOf(c))
    && (forall c | c in list && Compiles(catalog, durations, c) && (c.timeout != "" || c.maxConcurrency > 0) ::
          c.name in limits)
  }

  lemma AddChain(
    catalog: Catalog, durations: Durations, list: seq<HyperChain>, chains: map<string, Chain>,
    limits: map<string, ChainSettings>,
    c: HyperChain, chain: Chain, more: map<string, ChainSettings>)
    requires ChainsOf(catalog, durations, list, chains, limits) && forall b | b in list :: b.name != c.name
    requires if Compiles(catalog, durations, c) then IsCompiled(catalog, c, chain) else chain == DEGRADED
    requires if Compiles(catalog, durations, c) && HasLimits(c) then more == limits[c.name := SettingsOf(c)]
             else more == limits
    ensures ChainsOf(catalog, durations, list + [c], chains[c.name := chain], more)
  {
    hide Compiles, IsCompiled;
    var list', chains' := list + [c], chains[c.name := chain];
    assert c in list';
    forall n | n in chains' ensures exists b | b in list' :: b.name == n {
      if n != c.name {
        var b :| b in list && b.name == n;
        assert b in list';
      }
    }
    forall n | n in more
      ensures exists b | b in list' :: b.name == n && Compiles(catalog, durations, b) && more[n] == SettingsOf(b)
    {
      if n in limits && more[n] == limits[n] {
        var b :| b in list && b.name == n && Compiles(catalog, durations, b) && limits[n] == SettingsOf(b);
        assert b in list';
      }
    }
  }

  method CompileChains(catalog: Catalog, durations: Durations, list: seq<HyperChain>)
    returns (chains: map<string, Chain>, limits: map<string, ChainSettings>)
    requires UniqueNames(list)
    ensures ChainsOf(catalog, durations, list, chains, limits)
  {
    hide Compiles, IsCompiled;
    chains, limits := map[], map[];
    for i := 0 to |list|
      invariant ChainsOf(catalog, durations, list[..i], chains, limits)
    {
      hide ChainsOf;
      var c := list[i];
      var chain, settings := CompileChain(catalog, durations, c);
      var more := if settings.Some? then limits[c.name := settings.value] else limits;
      var stored := if chain.Some? then chain.value else DEGRADED;
      AddChain(catalog, durations, list[..i], chains, limits, c, stored, more);
      assert list[..i + 1] == list[..i] + [c];
      chains, limits := chains[c.name := stored], more;
    }
    assert list[..|list|] == list;
  }

  /*** Routes ***/

  ghost predicate ValidRoute(lib: Library, r: HyperRoute, workloads: bool) {
    r.targetPolicy != "" && r.matches != [] && forall m | m in r.matches :: ValidRule(lib, m, workloads)
  }

  ghost predicate Writes(rule: MatchRule, raw: RawMatch) {
    exists lowered :: IsWritten(rule, raw, lowered)
  }

  ghost predicate AllWritten(rules: seq<MatchRule>, raws: seq<RawMatch>) {
    |rules| == |raws| && forall i | 0 <= i < |raws| :: Writes(rules[i], raws[i])
  }

  /** Compiles a route, looking at all its matches before giving up on it. */
  method CompileRoute(lib: Library, r: HyperRoute, workloads: bool) returns (out: Option<seq<RawMatch>>)
    ensures out.Some? <==> ValidRoute(lib, r, workloads)
    ensures out.Some? ==> AllWritten(r.matches, out.value)
  {
    hide ValidRule, IsWritten;
    var bad := r.targetPolicy == "" || |r.matches| == 0;
    var raws: seq<RawMatch> := [];
    for i := 0 to |r.matches|
      invariant bad <==> r.targetPolicy == "" || |r.matches| == 0 || exists m | m in r.matches[..i] ::
              !ValidRule(lib, m, workloads)
      invariant !bad ==> AllWritten(r.matches[..i], raws)
    {
      var raw, lowered := CompileMatch(lib, r.matches[i], workloads);
      assert r.matches[..i + 1] == r.matches[..i] + [r.matches[i]];
      if raw.None? {
        assert r.matches[i] in r.matches[..i + 1];
        bad := true;
        continue;
      }
      assert Writes(r.matches[i], raw.value);
      raws := raws + [raw.value];
    }
    assert r.matches[..|r.matches|] == r.matches;
    out := if bad then None else Some(raws);
  }

  ghost predicate RouteWritten(r: HyperRoute, raw: RawRoute) {
    raw.name == r.name && raw.targetChain == r.targetPolicy && AllWritten(r.matches, raw.matches)
  }

  /** The written routes are the valid ones in order; `origin` says where each comes from. */
  ghost predicate IsCompilation(lib: Library, list: seq<HyperRoute>, raws: seq<RawRoute>, origin: seq<nat>,
                                workloads: bool) {
    && |raws| == |origin|
    && (forall i | 0 <= i < |origin| :: origin[i] < |list|)
    && (forall i, j | 0 <= i < j < |origin| :: origin[i] < origin[j])
    && (forall i | 0 <= i < |raws| ::
          ValidRoute(lib, list[origin[i]], workloads) && RouteWritten(list[origin[i]], raws[i]))
    && (forall j: nat | j < |list| && ValidRoute(lib, list[j], workloads) :: j in origin)
  }

  lemma SkipRoute(lib: Library, list: seq<HyperRoute>, raws: seq<RawRoute>, origin: seq<nat>, workloads: bool,
                  r: HyperRoute)
    requires IsCompilation(lib, list, raws, origin, workloads) && !ValidRoute(lib, r, workloads)
    ensures IsCompilation(lib, list + [r], raws, origin, workloads)
  {
    hide ValidRoute, RouteWritten;
  }

  lemma AddRoute(lib: Library, list: seq<HyperRoute>, raws: seq<RawRoute>, origin: seq<nat>, workloads: bool,
                 r: HyperRoute, raw: RawRoute)
    requires IsCompilation(lib, list, raws, origin, workloads) && ValidRoute(lib, r, workloads) && RouteWritten(r, raw)
    ensures IsCompilation(lib, list + [r], raws + [raw], origin + [|list|], workloads)
  {
    hide ValidRoute, RouteWritten;
    var list', origin' := list + [r], origin + [|list|];
    forall j: nat | j < |list'| && ValidRoute(lib, list'[j], workloads) ensures j in origin' {
      if j < |list| {
        assert list'[j] == list[j] && j in origin;
      } else {
        assert origin'[|origin|] == j;
      }
    }
  }

  /** `more` is `chains` with degraded chains added. */
  ghost predicate OnlyDegraded(chains: map<string, Chain>, more: map<string, Chain>) {
    && (forall n | n in chains :: n in more && more[n] == chains[n])
    && (forall n | n in more && n !in chains :: more[n] == DEGRADED)
  }

  /** Drops invalid routes; a route to a missing chain gets a degraded one. */
  method CompileRoutes(lib: Library, list: seq<HyperRoute>, chains: map<string, Chain>, workloads: bool)
    returns (raws: seq<RawRoute>, more: map<string, Chain>, ghost origin: seq<nat>)
    ensures IsCompilation(lib, list, raws, origin, workloads)
    ensures OnlyDegraded(chains, more) && forall raw | raw in raws :: raw.targetChain in more
  {
    hide ValidRoute, AllWritten;
    raws, more, origin := [], chains, [];
    for i := 0 to |list|
      invariant IsCompilation(lib, list[..i], raws, origin, workloads)
      invariant OnlyDegraded(chains, more) && forall raw | raw in raws :: raw.targetChain in more
    {
      hide IsCompilation;
      var r := list[i];
      assert list[..i + 1] == list[..i] + [r];
      var compiled := CompileRoute(lib, r, workloads);
      if compiled.None? {
        SkipRoute(lib, list[..i], raws, origin, workloads, r);
        continue;
      }
      if r.targetPolicy !in more {
        more := more[r.targetPolicy := DEGRADED];
      }
      var raw := RawRoute(r.name, r.targetPolicy, compiled.value);
      AddRoute(lib, list[..i], raws, origin, workloads, r, raw);
      raws, origin := raws + [raw], origin + [i];
    }
    assert list[..|list|] == list;
  }

  /*** Fallback chains ***/

  /** A map shared by reference, as the table of chains is between HyperConfigs. */
  class ChainTable {
    var chains: map<string, Chain>

    constructor (chains: map<string, Chain>)
      ensures this.chains == chains
    {
      this.chains := chains;
    }
  }

  function ReferencedChains(hc: HyperConfig): set<string> {
    {hc.defaultChain, hc.northSouth, hc.eastWest} - {""}
  }

  /** A config refers to its three fallbacks, as far as it sets them. */
  lemma ReferencesAreFallbacks(hc: HyperConfig, n: string)
    ensures n in ReferencedChains(hc) <==>
            n != "" && (n == hc.northSouth || n == hc.eastWest || n == hc.defaultChain)
  {
  }

  lemma AddDegraded(chains: map<string, Chain>, more: map<string, Chain>, name: string)
    requires OnlyDegraded(chains, more) && name !in chains
    ensures OnlyDegraded(chains, more[name := DEGRADED])
  {
  }

  lemma SameDegraded(chains: map<string, Chain>)
    ensures OnlyDegraded(chains, chains)
  {
  }

  /** The chains of one HyperConfig; the shared table is copied before the first missing chain is added. */
  method ConfigChains(base: ChainTable, hc: HyperConfig) returns (table: ChainTable)
    ensures OnlyDegraded(base.chains, table.chains) && base.chains == old(base.chains)
    ensures ReferencedChains(hc) <= table.chains.Keys <= base.chains.Keys + ReferencedChains(hc)
    ensures table == base || fresh(table)
  {
    table := base;
    var refs := ReferencedChains(hc);
    var todo := refs;
    hide ReferencedChains;
    while todo != {}
      invariant todo <= refs
      invariant table == base || (fresh(table) && |table.chains| > |base.chains|)
      invariant OnlyDegraded(base.chains, table.chains) && base.chains == old(base.chains)
      invariant refs - todo <= table.chains.Keys <= base.chains.Keys + (refs - todo)
    {
      hide OnlyDegraded;
      var name :| name in todo;
      todo := todo - {name};
      if name in base.chains {
        continue;
      }
      if |table.chains| == |base.chains| {
        SameDegraded(base.chains);
        table := new ChainTable(base.chains);
      }
      AddDegraded(base.chains, table.chains, name);
      table.chains := table.chains[name := DEGRADED];
    }
  }

  /*** The engine's validation ***/

  predicate GoodAction(action: string) {
    action == "" || action == "deny" || action == "allow"
  }

  predicate GoodSettings(durations: Durations, s: ChainSettings) {
    GoodTimeout(durations, s.timeout) && s.maxConcurrency >= 0 && GoodAction(s.onTimeout) && GoodAction(s.onOverload)
  }

  predicate GoodReference(cfg: EngineConfig, name: string) {
    name == "" || name in cfg.chains
  }

  predicate ReferencesDefined(cfg: EngineConfig) {
    && (forall r | r in cfg.routes :: r.targetChain != "" && r.targetChain in cfg.chains)
    && GoodReference(cfg, cfg.defaultChain) && GoodReference(cfg, cfg.other)
    && GoodReference(cfg, cfg.northSouth) && GoodReference(cfg, cfg.eastWest)
  }

  method ValidateChainReferences(cfg: EngineConfig) returns (ok: bool)
    ensures ok <==> ReferencesDefined(cfg)
  {
    for i := 0 to |cfg.routes|
      invariant forall r | r in cfg.routes[..i] :: r.targetChain != "" && r.targetChain in cfg.chains
    {
      assert cfg.routes[i] in cfg.routes;
      if cfg.routes[i].targetChain == "" || cfg.routes[i].targetChain !in cfg.chains {
        return false;
      }
    }
    assert cfg.routes[..|cfg.routes|] == cfg.routes;
    var todo := {cfg.defaultChain, cfg.other, cfg.northSouth, cfg.eastWest};
    while todo != {}
      invariant forall n | n in {cfg.defaultChain, cfg.other, cfg.northSouth, cfg.eastWest} - todo ::
                  GoodReference(cfg, n)
      invariant todo <= {cfg.defaultChain, cfg.other, cfg.northSouth, cfg.eastWest}
    {
      var name :| name in todo;
      todo := todo - {name};
      if name == "" {
        continue;
      }
      if name !in cfg.chains {
        return false;
      }
    }
    return true;
  }

  /** Everything the engine checks about routes, chains and limits. */
  ghost predicate Passes(lib: Library, durations: Durations, cfg: EngineConfig, workloads: bool) {
    && (forall r, m | r in cfg.routes && m in r.matches :: Readable(lib, m, workloads))
    && (forall n | n in cfg.settings :: n in cfg.chains && GoodSettings(durations, cfg.settings[n]))
    && ReferencesDefined(cfg)
  }

  function ConfigOf(chains: map<string, Chain>, limits: map<string, ChainSettings>, raws: seq<RawRoute>,
                    hc: HyperConfig): EngineConfig {
    EngineConfig(chains, limits, raws, hc.defaultChain, "", hc.northSouth, hc.eastWest, hc.admitUnknown)
  }

  /** Whatever the cluster holds, the engine accepts the compiled config. */
  lemma CompiledConfigPasses(
    lib: Library, catalog: Catalog, durations: Durations, workloads: bool, chainList: seq<HyperChain>,
    list: seq<HyperRoute>, hc: HyperConfig,
    chains: map<string, Chain>, limits: map<string, ChainSettings>, raws: seq<RawRoute>, more: map<string, Chain>,
    origin: seq<nat>, table: map<string, Chain>)
    requires ChainsOf(catalog, durations, chainList, chains, limits)
    requires IsCompilation(lib, list, raws, origin, workloads) && OnlyDegraded(chains, more)
    requires forall raw | raw in raws :: raw.targetChain in more
    requires OnlyDegraded(more, table) && ReferencedChains(hc) <= table.Keys
    ensures Passes(lib, durations, ConfigOf(table, limits, raws, hc), workloads)
  {
    var cfg := ConfigOf(table, limits, raws, hc);
    forall r, m | r in cfg.routes && m in r.matches ensures Readable(lib, m, workloads) {
      RouteIsReadable(lib, list, raws, origin, workloads, r, m);
    }
    forall n | n in limits ensures n in table && GoodSettings(durations, limits[n]) {
      LimitsAreGood(catalog, durations, chainList, chains, limits, n);
    }
    forall r | r in cfg.routes ensures r.targetChain != "" && r.targetChain in table {
      var i :| 0 <= i < |raws| && raws[i] == r;
      assert ValidRoute(lib, list[origin[i]], workloads) && RouteWritten(list[origin[i]], raws[i]);
    }
  }

  lemma LimitsAreGood(
    catalog: Catalog, durations: Durations, list: seq<HyperChain>, chains: map<string, Chain>,
    limits: map<string, ChainSettings>, n: string)
    requires ChainsOf(catalog, durations, list, chains, limits) && n in limits
    ensures n in chains && GoodSettings(durations, limits[n])
  {
    hide IsCompiled, Resolves;
    var c :| c in list && c.name == n && Compiles(catalog, durations, c) && limits[n] == SettingsOf(c);
  }

  lemma RouteIsReadable(lib: Library, list: seq<HyperRoute>, raws: seq<RawRoute>, origin: seq<nat>, workloads: bool,
                        r: RawRoute, m: RawMatch)
    requires IsCompilation(lib, list, raws, origin, workloads) && r in raws && m in r.matches
    ensures Readable(lib, m, workloads)
  {
    hide ValidRule, IsWritten, Readable;
    var i :| 0 <= i < |raws| && raws[i] == r;
    var j :| 0 <= j < |r.matches| && r.matches[j] == m;
    var source := list[origin[i]];
    assert ValidRoute(lib, source, workloads) && RouteWritten(source, r);
    assert source.matches[j] in source.matches && Writes(source.matches[j], m);
    var lowered :| IsWritten(source.matches[j], m, lowered);
    WrittenIsReadable(lib, source.matches[j], m, lowered, workloads);
  }

  /*** All of it ***/

  /** One engine config from the shared policy and one HyperConfig. */
  ghost predicate IsConfigFor(chains: map<string, Chain>, limits: map<string, ChainSettings>, raws: seq<RawRoute>,
                              hc: HyperConfig, cfg: EngineConfig) {
    && cfg == ConfigOf(cfg.chains, limits, raws, hc)
    && OnlyDegraded(chains, cfg.chains)
    && ReferencedChains(hc) <= cfg.chains.Keys
  }

  /** Compiles the cluster's policy once and writes one config per namespace with a HyperConfig. */
  method Reconcile(
    lib: Library, catalog: Catalog, durations: Durations, workloads: bool,
    chainList: seq<HyperChain>, sortedRoutes: seq<HyperRoute>, configs: map<string, HyperConfig>)
    returns (
      out: map<string, EngineConfig>,
      ghost chains: map<string, Chain>, ghost limits: map<string, ChainSettings>, ghost raws: seq<RawRoute>,
      ghost origin: seq<nat>)
    requires UniqueNames(chainList)
    ensures ChainsOf(catalog, durations, chainList, chains, limits)
            && IsCompilation(lib, sortedRoutes, raws, origin, workloads)
    ensures out.Keys == configs.Keys
    ensures forall ns | ns in configs :: IsConfigFor(chains, limits, raws, configs[ns], out[ns])
    ensures forall ns | ns in configs :: Passes(lib, durations, out[ns], workloads)
  {
    hide ChainsOf, IsCompilation, OnlyDegraded, Passes, ReferencedChains;
    var compiled, settings := CompileChains(catalog, durations, chainList);
    var written, more, from := CompileRoutes(lib, sortedRoutes, compiled, workloads);
    chains, limits, raws, origin := compiled, settings, written, from;
    var base := new ChainTable(more);
    out := map[];
    var todo := configs.Keys;
    while todo != {}
      invariant todo <= configs.Keys && base.chains == more && out.Keys == configs.Keys - todo
      invariant forall ns | ns in out :: IsConfigFor(chains, limits, raws, configs[ns], out[ns])
      invariant forall ns | ns in out :: Passes(lib, durations, out[ns], workloads)
    {
      var ns :| ns in todo;
      todo := todo - {ns};
      var table := ConfigChains(base, configs[ns]);
      DegradedTwice(chains, more, table.chains);
      CompiledConfigPasses(
        lib, catalog, durations, workloads, chainList, sortedRoutes, configs[ns], chains, limits, raws, more, origin,
        table.chains);
      out := out[ns := ConfigOf(table.chains, settings, written, configs[ns])];
    }
  }

  lemma DegradedTwice(a: map<string, Chain>, b: map<string, Chain>, c: map<string, Chain>)
    requires OnlyDegraded(a, b) && OnlyDegraded(b, c)
    ensures OnlyDegraded(a, c)
  {
  }
}
