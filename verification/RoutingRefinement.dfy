/**
 From cluster objects to the chain a request gets: the engine, loading what the operator compiled, routes as
 the HyperRoutes say (hyper-operator/internal/controller/hyperchain_master_compiler.go,
 internal/config/parser.go, internal/router/matcher.go).
 */
module RoutingRefinement {
  import opened Basics
  import opened Text
  import opened Selectors
  import opened Router
  import opened RouteRules
  import opened RouteCompiler

  /*** Loading a config ***/

  ghost predicate Reads(raw: RawMatch, m: MatchConfig) {
    exists lowered :: IsRead(raw, m, lowered)
  }

  ghost predicate RouteRead(raw: RawRoute, r: RouteConfig) {
    && r.name == raw.name && r.targetChain == raw.targetChain && |r.matches| == |raw.matches|
    && forall i | 0 <= i < |raw.matches| :: Reads(raw.matches[i], r.matches[i])
  }

  ghost predicate AllRead(raws: seq<RawRoute>, routes: seq<RouteConfig>) {
    |raws| == |routes| && forall i | 0 <= i < |raws| :: RouteRead(raws[i], routes[i])
  }

  method ParseRoute(lib: Library, raw: RawRoute, workloads: bool) returns (r: Option<RouteConfig>)
    ensures (forall m | m in raw.matches :: Readable(lib, m, workloads)) ==> r.Some?
    ensures r.Some? ==> RouteRead(raw, r.value)
  {
    hide Readable, IsRead;
    var matches: seq<MatchConfig> := [];
    for j := 0 to |raw.matches|
      invariant |matches| == j && forall i | 0 <= i < j :: Reads(raw.matches[i], matches[i])
    {
      var m, lowered := ParseMatch(lib, raw.matches[j], workloads);
      if m.None? {
        assert raw.matches[j] in raw.matches;
        return None;
      }
      assert Reads(raw.matches[j], m.value);
      matches := matches + [m.value];
    }
    return Some(RouteConfig(raw.name, matches, raw.targetChain));
  }

  /** Reads the routing part of a config, or rejects the config. */
  method ParseConfig(lib: Library, durations: Durations, cfg: EngineConfig,
                     workloads: bool) returns (rc: Option<RouterConfig>)
    ensures Passes(lib, durations, cfg, workloads) ==> rc.Some?
    ensures rc.Some? ==> ReferencesDefined(cfg) && AllRead(cfg.routes, rc.value.routes)
    ensures rc.Some? ==> forall n | n in cfg.settings :: n in cfg.chains && GoodSettings(durations, cfg.settings[n])
    ensures rc.Some? ==>
              rc.value == RouterConfig(rc.value.routes, cfg.northSouth, cfg.eastWest, cfg.defaultChain, cfg.other)
  {
    hide Readable, RouteRead, ReferencesDefined;
    var routes: seq<RouteConfig> := [];
    for i := 0 to |cfg.routes|
      invariant AllRead(cfg.routes[..i], routes)
    {
      assert cfg.routes[i] in cfg.routes;
      var r := ParseRoute(lib, cfg.routes[i], workloads);
      if r.None? {
        return None;
      }
      routes := routes + [r.value];
    }
    assert cfg.routes[..|cfg.routes|] == cfg.routes;
    var todo := cfg.settings.Keys;
    while todo != {}
      invariant todo <= cfg.settings.Keys
      invariant forall n | n in cfg.settings && n !in todo ::
                  n in cfg.chains && GoodSettings(durations, cfg.settings[n])
    {
      var n :| n in todo;
      todo := todo - {n};
      if n !in cfg.chains || !GoodSettings(durations, cfg.settings[n]) {
        return None;
      }
    }
    var ok := ValidateChainReferences(cfg);
    if !ok {
      return None;
    }
    return Some(RouterConfig(routes, cfg.northSouth, cfg.eastWest, cfg.defaultChain, cfg.other));
  }

  /*** Routing ***/

  /** A valid HyperRoute applies to a request when one of its rules matches, selectors tried one by one. */
  ghost predicate Applies(lib: Library, r: HyperRoute, workloads: bool, call: Call) {
    ValidRoute(lib, r, workloads) && exists m | m in r.matches && ValidRule(lib, m, workloads) :: RuleHits(lib, m, call)
  }

  /** `RuleMatches` for rules whose selectors all parse. */
  ghost predicate RuleHits(lib: Library, m: MatchRule, call: Call) {
    && (forall w | w in m.sources :: w.Written?) && (forall w | w in m.destinations :: w.Written?)
    && RuleMatches(lib, m, call)
  }

  ghost predicate HeadersAgree(r: HyperRoute) {
    forall m | m in r.matches :: NamesAgree(m.headers)
  }

  /** Valid routes, which alone reach the engine, have header names that agree. */
  ghost predicate ValidHeadersAgree(lib: Library, list: seq<HyperRoute>, workloads: bool) {
    forall r | r in list && ValidRoute(lib, r, workloads) :: HeadersAgree(r)
  }

  lemma MatchRefines(lib: Library, rule: MatchRule, workloads: bool, raw: RawMatch, m: MatchConfig, call: Call)
    requires ValidRule(lib, rule, workloads) && Writes(rule, raw) && Reads(raw, m)
    ensures RuleHits(lib, rule, call) ==> EntryMatches(lib, m, call)
    ensures NamesAgree(rule.headers) && EntryMatches(lib, m, call) ==> RuleHits(lib, rule, call)
  {
    hide RuleMatches, EntryMatches, NamesAgree;
    var lowered :| IsWritten(rule, raw, lowered);
    var again :| IsRead(raw, m, again);
    hide IsRead, IsWritten;
    AcceptedAreWritten(rule.sources, Source, workloads);
    AcceptedAreWritten(rule.destinations, Destination, workloads);
    CompilationKeepsMeaning(lib, rule, raw, lowered, m, again, call);
  }

  /** The engine's route matches whatever the HyperRoute applies to, and no more if its header names agree. */
  lemma RouteRefines(lib: Library, r: HyperRoute, workloads: bool, raw: RawRoute, e: RouteConfig, call: Call)
    requires ValidRoute(lib, r, workloads) && RouteWritten(r, raw) && RouteRead(raw, e)
    ensures Applies(lib, r, workloads, call) ==> RouteMatches(lib, e, call)
    ensures HeadersAgree(r) && RouteMatches(lib, e, call) ==> Applies(lib, r, workloads, call)
  {
    hide ValidRule, RuleHits, EntryMatches, NamesAgree, Writes, Reads;
    forall i | 0 <= i < |r.matches|
      ensures RuleHits(lib, r.matches[i], call) ==> EntryMatches(lib, e.matches[i], call)
      ensures NamesAgree(r.matches[i].headers) && EntryMatches(lib, e.matches[i], call)
              ==> RuleHits(lib, r.matches[i], call)
    {
      assert r.matches[i] in r.matches;
      MatchRefines(lib, r.matches[i], workloads, raw.matches[i], e.matches[i], call);
    }
    if Applies(lib, r, workloads, call) {
      var m :| m in r.matches && ValidRule(lib, m, workloads) && RuleHits(lib, m, call);
      var i :| 0 <= i < |r.matches| && r.matches[i] == m;
      assert e.matches[i] in e.matches;
    }
    if HeadersAgree(r) && RouteMatches(lib, e, call) {
      var m :| m in e.matches && EntryMatches(lib, m, call);
      var i :| 0 <= i < |e.matches| && e.matches[i] == m;
      assert r.matches[i] in r.matches;
    }
  }

  ghost predicate ByPriority(list: seq<HyperRoute>) {
    forall i, j | 0 <= i < j < |list| :: list[i].priority >= list[j].priority
  }

  /** The HyperRoutes as the operator sorts them: any order with priorities descending. */
  ghost predicate IsSorting(items: seq<HyperRoute>, list: seq<HyperRoute>) {
    multiset(items) == multiset(list) && ByPriority(list)
  }

  /** `r` applies and no other HyperRoute that applies has a higher priority. */
  ghost predicate IsBest(lib: Library, items: seq<HyperRoute>, workloads: bool, call: Call, r: HyperRoute) {
    && r in items && Applies(lib, r, workloads, call)
    && forall other | other in items && Applies(lib, other, workloads, call) :: other.priority <= r.priority
  }

  /** The first matching engine route comes from a best HyperRoute. */
  lemma FirstIsBest(
    lib: Library, list: seq<HyperRoute>, raws: seq<RawRoute>, origin: seq<nat>, routes: seq<RouteConfig>,
    workloads: bool, call: Call, i: nat) returns (best: HyperRoute)
    requires ByPriority(list) && IsCompilation(lib, list, raws, origin, workloads) && AllRead(raws, routes)
    requires IsFirst(lib, routes, call, i) && ValidHeadersAgree(lib, list, workloads)
    ensures IsBest(lib, list, workloads, call, best) && routes[i].targetChain == best.targetPolicy
  {
    hide ValidRoute, RouteWritten, RouteRead, RouteMatches, HeadersAgree, Applies;
    best := list[origin[i]];
    RouteRefines(lib, best, workloads, raws[i], routes[i], call);
    TargetsAgree(best, raws[i], routes[i]);
    forall other | other in list && Applies(lib, other, workloads, call) ensures other.priority <= best.priority {
      var j: nat :| j < |list| && list[j] == other;
      AppliesIsValid(lib, other, workloads, call);
      var k :| 0 <= k < |origin| && origin[k] == j;
      RouteRefines(lib, other, workloads, raws[k], routes[k], call);
      assert i <= k && origin[i] <= origin[k];
    }
  }

  lemma TargetsAgree(r: HyperRoute, raw: RawRoute, e: RouteConfig)
    requires RouteWritten(r, raw) && RouteRead(raw, e)
    ensures e.targetChain == r.targetPolicy
  {
  }

  lemma AppliesIsValid(lib: Library, r: HyperRoute, workloads: bool, call: Call)
    requires Applies(lib, r, workloads, call)
    ensures ValidRoute(lib, r, workloads)
  {
  }

  /** A request that some HyperRoute applies to never falls through to a default chain. */
  lemma NothingFallsThrough(
    lib: Library, list: seq<HyperRoute>, raws: seq<RawRoute>, origin: seq<nat>, routes: seq<RouteConfig>,
    workloads: bool, call: Call, r: HyperRoute)
    requires IsCompilation(lib, list, raws, origin, workloads) && AllRead(raws, routes)
    requires r in list && Applies(lib, r, workloads, call)
    ensures exists e | e in routes :: RouteMatches(lib, e, call)
  {
    hide ValidRoute, RouteWritten, RouteRead, RouteMatches, Applies;
    AppliesIsValid(lib, r, workloads, call);
    var j: nat :| j < |list| && list[j] == r;
    var k :| 0 <= k < |origin| && origin[k] == j;
    RouteRefines(lib, r, workloads, raws[k], routes[k], call);
    assert routes[k] in routes;
  }

  /*** Folded header names ***/

  /** The rule with its header names folded to lower case, in one of the ways the operator may do that. */
  ghost predicate RuleFolded(rule: MatchRule, f: MatchRule) {
    f == rule.(headers := f.headers) && IsLowered(rule.headers, f.headers)
  }

  ghost predicate RouteFolded(r: HyperRoute, f: HyperRoute) {
    && f == r.(matches := f.matches) && |f.matches| == |r.matches|
    && forall i | 0 <= i < |r.matches| :: RuleFolded(r.matches[i], f.matches[i])
  }

  /** Every valid route is folded; the others never reach the engine. */
  ghost predicate AllFolded(lib: Library, list: seq<HyperRoute>, folded: seq<HyperRoute>, workloads: bool) {
    |list| == |folded| && forall i | 0 <= i < |list| ::
      if ValidRoute(lib, list[i], workloads) then RouteFolded(list[i], folded[i]) else folded[i] == list[i]
  }

  ghost function FoldedRule(rule: MatchRule, raw: RawMatch): MatchRule
    requires Writes(rule, raw)
  {
    var lowered :| IsWritten(rule, raw, lowered);
    rule.(headers := lowered)
  }

  lemma FoldedRuleIsWritten(rule: MatchRule, raw: RawMatch)
    requires Writes(rule, raw)
    ensures RuleFolded(rule, FoldedRule(rule, raw)) && Writes(FoldedRule(rule, raw), raw)
    ensures NamesAgree(FoldedRule(rule, raw).headers)
  {
    var f := FoldedRule(rule, raw);
    LoweredIsLower(rule.headers, f.headers);
    assert IsLowered(f.headers, f.headers) by {
      forall j | j in f.headers ensures exists k | k in f.headers :: Lower(k) == j && f.headers[k] == f.headers[j] {
        assert Lower(j) == j;
      }
    }
    assert IsWritten(f, raw, f.headers);
  }

  ghost function FoldedRoute(r: HyperRoute, raw: RawRoute): HyperRoute
    requires RouteWritten(r, raw)
  {
    r.(matches := seq(|r.matches|, i requires 0 <= i < |r.matches| => FoldedRule(r.matches[i], raw.matches[i])))
  }

  lemma FoldedRouteIsWritten(lib: Library, r: HyperRoute, raw: RawRoute, workloads: bool)
    requires RouteWritten(r, raw) && ValidRoute(lib, r, workloads)
    ensures var f := FoldedRoute(r, raw);
            && RouteFolded(r, f) && RouteWritten(f, raw) && ValidRoute(lib, f, workloads) && HeadersAgree(f)
  {
    hide NamesAgree, Writes, IsLowered, FoldedRule;
    var f := FoldedRoute(r, raw);
    forall i | 0 <= i < |r.matches|
      ensures RuleFolded(r.matches[i], f.matches[i]) && Writes(f.matches[i], raw.matches[i])
      ensures NamesAgree(f.matches[i].headers) && ValidRule(lib, f.matches[i], workloads)
    {
      FoldedRuleIsWritten(r.matches[i], raw.matches[i]);
      assert r.matches[i] in r.matches;
    }
  }

  /** What is written out is also what would be written of the routes with folded names. */
  lemma FoldedCompilation(lib: Library, list: seq<HyperRoute>, raws: seq<RawRoute>, origin: seq<nat>, workloads: bool)
      returns (folded: seq<HyperRoute>)
    requires IsCompilation(lib, list, raws, origin, workloads)
    ensures AllFolded(lib, list, folded, workloads) && ValidHeadersAgree(lib, folded, workloads)
    ensures IsCompilation(lib, folded, raws, origin, workloads)
  {
    hide ValidRoute, RouteWritten, RouteFolded, HeadersAgree, FoldedRoute;
    folded := seq(|list|, j requires 0 <= j < |list| =>
      if k :| 0 <= k < |origin| && origin[k] == j then FoldedRoute(list[j], raws[k]) else list[j]);
    forall k | 0 <= k < |origin| {
      FoldedRouteIsWritten(lib, list[origin[k]], raws[k], workloads);
    }
  }

  /*** End to end ***/

  /** The chain for requests that no HyperRoute applies to: that of their class, else the general one. */
  ghost predicate IsFallback(hc: HyperConfig, traffic: Traffic, target: string) {
    if traffic == NorthSouth && hc.northSouth != "" then target == hc.northSouth
    else if traffic == EastWest && hc.eastWest != "" then target == hc.eastWest
    else target == hc.defaultChain
  }

  /** The chain under a name: the compiled HyperChain, or a denial if that is missing or does not compile. */
  ghost predicate IsChainFor(catalog: Catalog, durations: Durations, chainList: seq<HyperChain>, name: string,
                             chain: Chain) {
    if exists c | c in chainList :: c.name == name && Compiles(catalog, durations, c)
    then exists c | c in chainList :: c.name == name && IsCompiled(catalog, c, chain)
    else chain == DEGRADED
  }

  lemma ChainsAreFor(
    catalog: Catalog, durations: Durations, chainList: seq<HyperChain>, chains: map<string, Chain>,
    limits: map<string, ChainSettings>,
    all: map<string, Chain>, name: string)
    requires UniqueNames(chainList) && ChainsOf(catalog, durations, chainList, chains, limits)
            && OnlyDegraded(chains, all) && name in all
    ensures IsChainFor(catalog, durations, chainList, name, all[name])
    ensures name in limits ==> exists c | c in chainList :: c.name == name && Compiles(catalog, durations, c)
  {
    hide Compiles, IsCompiled;
    if c :| c in chainList && c.name == name && Compiles(catalog, durations, c) {
      assert all[name] == chains[name];
    } else if name in chains {
      var c :| c in chainList && c.name == name;
    }
  }

  /** The route of a request is as the HyperRoutes say. */
  ghost predicate RoutedAsIntended(lib: Library, items: seq<HyperRoute>, workloads: bool, hc: HyperConfig, call: Call,
                                   target: string) {
    if exists r | r in items :: Applies(lib, r, workloads, call)
    then exists r | IsBest(lib, items, workloads, call, r) :: target == r.targetPolicy
    else IsFallback(hc, call.traffic, target)
  }

  /** The route of a request is as the HyperRoutes say once their header names are folded in some way. */
  ghost predicate RoutedAsFolded(lib: Library, list: seq<HyperRoute>, workloads: bool, hc: HyperConfig, call: Call,
                                 target: string) {
    exists folded | AllFolded(lib, list, folded, workloads) ::
      RoutedAsIntended(lib, folded, workloads, hc, call, target)
  }

  /**
   Compiles the cluster, loads one config and routes one request: the request gets the chain of a valid
   HyperRoute of the highest priority that applies to it, else the default for its class, and that chain
   denies if it is missing or does not compile. HyperRoutes are taken with their header names folded; if names that
   collide ask for the same, that makes no difference.
   */
  method RouteThroughCluster(
    lib: Library, catalog: Catalog, durations: Durations, workloads: bool, chainList: seq<HyperChain>,
    items: seq<HyperRoute>, sortedRoutes: seq<HyperRoute>, configs: map<string, HyperConfig>, ns: string, call: Call)
    returns (target: string, chain: Option<Chain>)
    requires UniqueNames(chainList) && IsSorting(items, sortedRoutes) && ns in configs
    ensures RoutedAsFolded(lib, sortedRoutes, workloads, configs[ns], call, target)
    ensures ValidHeadersAgree(lib, items, workloads) ==>
              RoutedAsIntended(lib, items, workloads, configs[ns], call, target)
    ensures chain.Some? <==> target != ""
    ensures chain.Some? ==> IsChainFor(catalog, durations, chainList, target, chain.value)
  {
    hide ChainsOf, IsCompilation, OnlyDegraded, ValidHeadersAgree, AllRead, RouteMatches, IsChainFor, RoutedAsIntended,
      RoutedAsFolded, ReferencesDefined, IsFirst;
    var out, chains, limits, raws, origin :=
      Reconcile(lib, catalog, durations, workloads, chainList, sortedRoutes, configs);
    var cfg := out[ns];
    assert IsConfigFor(chains, limits, raws, configs[ns], cfg);
    var rc := ParseConfig(lib, durations, cfg, workloads);
    var matched;
    target, matched := RouteWith(lib, rc.value, call);
    RoutingIsFolded(lib, sortedRoutes, raws, origin, rc.value, workloads, configs[ns], call, target, matched);
    if ValidHeadersAgree(lib, items, workloads) {
      RoutingIsIntended(
        lib, items, sortedRoutes, raws, origin, rc.value, workloads, configs[ns], call, target, matched);
    }
    TargetIsDefined(lib, cfg, rc.value, call, target, matched);
    if target == "" {
      return target, None;
    }
    ChainsAreFor(catalog, durations, chainList, chains, limits, cfg.chains, target);
    chain := Some(cfg.chains[target]);
  }

  /** What `RouteWith` promises of its results. */
  ghost predicate IsRoute(lib: Library, rc: RouterConfig, call: Call, target: string, matched: Option<string>) {
    && (forall i: nat | IsFirst(lib, rc.routes, call, i) :: target == rc.routes[i].targetChain)
    && (matched.None? ==> target == DefaultChain(rc, call.traffic))
    && (matched.None? <==> forall r | r in rc.routes :: !RouteMatches(lib, r, call))
  }

  lemma TargetIsRoute(lib: Library, rc: RouterConfig, call: Call) returns (matched: Option<string>)
    ensures IsRoute(lib, rc, call, Target(lib, rc, call), matched)
  {
    hide RouteMatches;
    var fallback := DefaultChain(rc, call.traffic);
    forall i: nat | IsFirst(lib, rc.routes, call, i) ensures Target(lib, rc, call) == rc.routes[i].targetChain {
      TargetOfFirst(lib, rc.routes, call, fallback, i);
    }
    if forall r | r in rc.routes :: !RouteMatches(lib, r, call) {
      TargetOfNone(lib, rc.routes, call, fallback);
      matched := None;
    } else {
      matched := Some("");
    }
  }

  lemma RoutingIsIntended(
    lib: Library, items: seq<HyperRoute>, list: seq<HyperRoute>, raws: seq<RawRoute>, origin: seq<nat>,
    rc: RouterConfig, workloads: bool,
    hc: HyperConfig, call: Call, target: string, matched: Option<string>)
    requires IsSorting(items, list) && IsCompilation(lib, list, raws, origin, workloads) && AllRead(raws, rc.routes)
    requires rc == RouterConfig(rc.routes, hc.northSouth, hc.eastWest, hc.defaultChain, "")
    requires IsRoute(lib, rc, call, target, matched) && ValidHeadersAgree(lib, items, workloads)
    ensures RoutedAsIntended(lib, items, workloads, hc, call, target)
  {
    hide IsCompilation, HeadersAgree, AllRead, RouteMatches, Applies, IsBest, IsFirst, ValidRoute;
    SortingKeeps(items, list);
    assert ValidHeadersAgree(lib, list, workloads);
    if matched.Some? {
      var k :| 0 <= k < |rc.routes| && RouteMatches(lib, rc.routes[k], call);
      var i := FirstRoute(lib, rc.routes, call, k);
      var best := FirstIsBest(lib, list, raws, origin, rc.routes, workloads, call, i);
      BestAmongItems(lib, items, list, workloads, call, best);
    } else {
      forall r | r in items ensures !Applies(lib, r, workloads, call) {
        if Applies(lib, r, workloads, call) {
          NothingFallsThrough(lib, list, raws, origin, rc.routes, workloads, call, r);
        }
      }
    }
  }

  lemma RoutingIsFolded(
    lib: Library, list: seq<HyperRoute>, raws: seq<RawRoute>, origin: seq<nat>, rc: RouterConfig, workloads: bool,
    hc: HyperConfig, call: Call, target: string, matched: Option<string>)
    requires ByPriority(list) && IsCompilation(lib, list, raws, origin, workloads) && AllRead(raws, rc.routes)
    requires rc == RouterConfig(rc.routes, hc.northSouth, hc.eastWest, hc.defaultChain, "")
    requires IsRoute(lib, rc, call, target, matched)
    ensures RoutedAsFolded(lib, list, workloads, hc, call, target)
  {
    hide IsCompilation, AllRead, RoutedAsIntended, IsRoute, ValidRoute, ValidHeadersAgree;
    var folded := FoldedCompilation(lib, list, raws, origin, workloads);
    assert ByPriority(folded);
    RoutingIsIntended(lib, folded, folded, raws, origin, rc, workloads, hc, call, target, matched);
  }

  lemma TargetIsDefined(lib: Library, cfg: EngineConfig, rc: RouterConfig, call: Call, target: string,
                        matched: Option<string>)
    requires ReferencesDefined(cfg) && AllRead(cfg.routes, rc.routes) && IsRoute(lib, rc, call, target, matched)
    requires rc == RouterConfig(rc.routes, cfg.northSouth, cfg.eastWest, cfg.defaultChain, cfg.other)
    ensures target == "" || target in cfg.chains
  {
    hide RouteMatches, AllRead;
    if matched.Some? {
      var k :| 0 <= k < |rc.routes| && RouteMatches(lib, rc.routes[k], call);
      var i := FirstRoute(lib, rc.routes, call, k);
      RouteIsDefined(cfg, rc.routes, i);
    }
  }

  lemma SortingKeeps(items: seq<HyperRoute>, list: seq<HyperRoute>)
    requires multiset(items) == multiset(list)
    ensures forall r :: r in items <==> r in list
  {
    forall r ensures r in items <==> r in list {
      assert r in items <==> r in multiset(items);
      assert r in list <==> r in multiset(list);
    }
  }

  lemma {:induction false} FirstRoute(lib: Library, routes: seq<RouteConfig>, call: Call, i: nat) returns (first: nat)
    requires i < |routes| && RouteMatches(lib, routes[i], call)
    ensures IsFirst(lib, routes, call, first)
    decreases i
  {
    hide RouteMatches;
    if j: nat :| j < i && RouteMatches(lib, routes[j], call) {
      first := FirstRoute(lib, routes, call, j);
    } else {
      first := i;
    }
  }

  lemma BestAmongItems(lib: Library, items: seq<HyperRoute>, list: seq<HyperRoute>, workloads: bool, call: Call,
                       best: HyperRoute)
    requires (forall r :: r in items <==> r in list) && IsBest(lib, list, workloads, call, best)
    ensures IsBest(lib, items, workloads, call, best) && exists r | r in items :: Applies(lib, r, workloads, call)
  {
    hide Applies;
  }

  lemma RouteIsDefined(cfg: EngineConfig, routes: seq<RouteConfig>, i: nat)
    requires ReferencesDefined(cfg) && AllRead(cfg.routes, routes) && i < |routes|
    ensures routes[i].targetChain != "" && routes[i].targetChain in cfg.chains
  {
    assert RouteRead(cfg.routes[i], routes[i]) && cfg.routes[i] in cfg.routes;
  }
}
