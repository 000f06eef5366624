/**
 Header names of a HyperRoute that differ only in case, from the cluster to the chain a request gets
 (hyper-operator/internal/routes/routes.go, internal/config/parser.go): the routes mean what they say if and only if
 such names ask for the same.
 */
module HeaderCollisions {
  import opened Basics
  import opened Text
  import opened Selectors
  import opened Router
  import opened RouteRules
  import opened RouteCompiler
  import opened RoutingRefinement

  /** Every list of selectors can be compiled to a set. */
  lemma {:induction false} TablesExist(list: seq<Selector>) returns (s: Set)
    ensures Tables(s, list)
  {
    if list == [] {
      s := EMPTY_SET;
    } else {
      hide Tables;
      var init := list[..|list| - 1];
      var t := TablesExist(init);
      AddTables(t, init, list[|list| - 1]);
      s := Add(t, list[|list| - 1]);
      assert init + [list[|list| - 1]] == list;
    }
  }

  lemma SetExists(list: seq<Written>) returns (s: Option<Set>)
    requires forall w | w in list :: w.Written?
    ensures SetFor(list, s)
  {
    hide Tables;
    if list == [] {
      s := None;
    } else {
      var t := TablesExist(SelectorsOf(list));
      s := Some(t);
    }
  }

  /** A valid rule can be written and read with any folding of its header names. */
  lemma FoldingCompiles(lib: Library, rule: MatchRule, workloads: bool, lowered: map<string, string>)
      returns (raw: RawMatch, m: MatchConfig)
    requires ValidRule(lib, rule, workloads) && IsLowered(rule.headers, lowered)
    ensures IsWritten(rule, raw, lowered) && IsRead(raw, m, Exactly(lowered))
  {
    LoweredIsLower(rule.headers, lowered);
    var texts := Exactly(lowered);
    assert IsLowered(texts, texts) by {
      forall j | j in texts ensures exists k | k in texts :: Lower(k) == j && texts[k] == texts[j] {
        assert Lower(j) == j;
      }
    }
    hide IsLowered, Tables;
    AcceptedAreWritten(rule.sources, Source, workloads);
    AcceptedAreWritten(rule.destinations, Destination, workloads);
    var traffic := EngineTraffic(rule.traffic).value;
    raw := RawMatch(traffic, rule.sources, rule.destinations, rule.pathPrefix, rule.pathRegexPattern, texts);
    var sources := SetExists(rule.sources);
    var destinations := SetExists(rule.destinations);
    m := MatchConfig(
      traffic, rule.sources, rule.destinations, Parsed(traffic).value, sources, destinations, rule.pathPrefix,
      if rule.pathRegexPattern == "" then None else Some(rule.pathRegexPattern),
      map k | k in texts :: CompiledRule(texts[k]));
  }

  /** The request meets the rule, headers aside. */
  ghost predicate MeetsRest(lib: Library, rule: MatchRule, call: Call) {
    RuleHits(lib, rule.(headers := map[]), call)
  }

  lemma RestIgnoresHeaders(lib: Library, rule: MatchRule, call: Call, headers: map<string, string>)
    requires MeetsRest(lib, rule, call)
    ensures MeetsRest(lib, rule, call.(headers := headers))
    ensures RuleHits(lib, rule, call.(headers := headers)) ==> RuleHeaders(rule.headers, headers)
  {
    hide SomeSource, SomeDestination, RuleHeaders;
    var other := call.(headers := headers);
    assert ExternalAllowed(call) == ExternalAllowed(other);
    assert RuleHeaders(map[], headers) by {
      NoRules(headers);
    }
  }

  lemma NoRules(headers: map<string, string>)
    ensures RuleHeaders(map[], headers)
  {
  }

  /** A compiled match matches a request that meets the rest of its rule and the headers as folded. */
  lemma RestAndHeaders(lib: Library, rule: MatchRule, raw: RawMatch, m: MatchConfig, lowered: map<string, string>,
                       call: Call)
    requires IsWritten(rule, raw, lowered) && IsRead(raw, m, Exactly(lowered)) && MeetsRest(lib, rule, call)
    requires LoweredHeaders(lowered, call.headers)
    ensures EntryMatches(lib, m, call)
  {
    hide IsLowered, HeadersMatch, LoweredHeaders, RuleHeaders, SourceMatches, DestinationMatches, RuleSource,
      RuleDestination, Tables;
    ReadSource(rule.sources, m.compiledSources, call);
    ReadDestination(rule.destinations, m.compiledDestinations, call);
    ReadHeaders(lib, rule.headers, lowered, Exactly(lowered), m.headers, call.headers);
    assert TrafficMatches(m, call.traffic) <==> RuleTraffic(rule.traffic, call.traffic);
  }

  /** A compiled rule whose names collide can match a request that the rule excludes. */
  lemma CollidingRuleWidens(lib: Library, rule: MatchRule, workloads: bool, base: Call)
      returns (raw: RawMatch, m: MatchConfig, call: Call)
    requires ValidRule(lib, rule, workloads) && !NamesAgree(rule.headers) && MeetsRest(lib, rule, base)
    ensures Writes(rule, raw) && Reads(raw, m) && call == base.(headers := call.headers)
    ensures EntryMatches(lib, m, call) && !RuleHits(lib, rule, call)
  {
    hide IsLowered, NamesAgree, LoweredHeaders, RuleHeaders, EntryMatches, RuleHits, IsWritten, IsRead, MeetsRest;
    var lowered, headers := CollidingNamesWiden(rule.headers);
    raw, m := FoldingCompiles(lib, rule, workloads, lowered);
    call := base.(headers := headers);
    RestIgnoresHeaders(lib, rule, base, headers);
    RestAndHeaders(lib, rule, raw, m, lowered, call);
  }

  /** A config with this fallback sends every request where the HyperRoutes say, however their names are folded. */
  ghost predicate RoutesRightly(lib: Library, list: seq<HyperRoute>, workloads: bool, hc: HyperConfig) {
    forall raws, origin, routes, call |
      IsCompilation(lib, list, raws, origin, workloads) && AllRead(raws, routes) ::
      RoutedAsIntended(lib, list, workloads, hc, call, Target(lib, ConfigWith(hc, routes), call))
  }

  function ConfigWith(hc: HyperConfig, routes: seq<RouteConfig>): RouterConfig {
    RouterConfig(routes, hc.northSouth, hc.eastWest, hc.defaultChain, "")
  }

  lemma AgreeingRoutesRightly(lib: Library, list: seq<HyperRoute>, workloads: bool, hc: HyperConfig)
    requires ByPriority(list) && ValidHeadersAgree(lib, list, workloads)
    ensures RoutesRightly(lib, list, workloads, hc)
  {
    hide ValidHeadersAgree, IsCompilation, AllRead, RoutedAsIntended, IsRoute, Target;
    forall raws, origin, routes, call |
      IsCompilation(lib, list, raws, origin, workloads) && AllRead(raws, routes)
      ensures RoutedAsIntended(lib, list, workloads, hc, call, Target(lib, ConfigWith(hc, routes), call))
    {
      var rc := ConfigWith(hc, routes);
      var matched := TargetIsRoute(lib, rc, call);
      RoutingIsIntended(
        lib, list, list, raws, origin, rc, workloads, hc, call, Target(lib, rc, call), matched);
    }
  }

  /** A route of one rule, as written and read. */
  lemma OneRuleCompiles(lib: Library, r: HyperRoute, workloads: bool, raw: RawMatch, m: MatchConfig)
      returns (raws: seq<RawRoute>, routes: seq<RouteConfig>)
    requires ValidRoute(lib, r, workloads) && |r.matches| == 1 && Writes(r.matches[0], raw) && Reads(raw, m)
    ensures IsCompilation(lib, [r], raws, [0], workloads) && AllRead(raws, routes)
    ensures routes == [RouteConfig(r.name, [m], r.targetPolicy)]
  {
    hide ValidRule, Writes, Reads;
    raws := [RawRoute(r.name, r.targetPolicy, [raw])];
    routes := [RouteConfig(r.name, [m], r.targetPolicy)];
    assert RouteWritten(r, raws[0]) && RouteRead(raws[0], routes[0]);
  }

  /** A request that the only route does not apply to belongs to the fallback. */
  lemma NotIntended(lib: Library, r: HyperRoute, workloads: bool, hc: HyperConfig, call: Call)
    requires |r.matches| == 1 && !RuleHits(lib, r.matches[0], call) && !IsFallback(hc, call.traffic, r.targetPolicy)
    ensures !RoutedAsIntended(lib, [r], workloads, hc, call, r.targetPolicy)
  {
    hide RuleHits, ValidRule, IsFallback;
    assert !Applies(lib, r, workloads, call);
    hide Applies;
    forall o | o in [r] ensures !Applies(lib, o, workloads, call) {
      assert o == r;
    }
  }

  lemma OnlyTarget(lib: Library, m: MatchConfig, name: string, target: string, rc: RouterConfig, call: Call)
    requires EntryMatches(lib, m, call) && rc.routes == [RouteConfig(name, [m], target)]
    ensures Target(lib, rc, call) == target
  {
    hide EntryMatches;
    assert m in rc.routes[0].matches;
  }

  /** A route whose names collide can be compiled so that some request goes where it should not. */
  lemma CollidingRouteMisroutes(lib: Library, r: HyperRoute, workloads: bool, hc: HyperConfig, base: Call)
      returns (raws: seq<RawRoute>, routes: seq<RouteConfig>, call: Call)
    requires ValidRoute(lib, r, workloads) && |r.matches| == 1 && MeetsRest(lib, r.matches[0], base)
    requires !IsFallback(hc, base.traffic, r.targetPolicy) && !NamesAgree(r.matches[0].headers)
    ensures IsCompilation(lib, [r], raws, [0], workloads) && AllRead(raws, routes)
    ensures !RoutedAsIntended(lib, [r], workloads, hc, call, Target(lib, ConfigWith(hc, routes), call))
  {
    hide NamesAgree, ValidRule, EntryMatches, RuleHits, MeetsRest, Writes, Reads, IsCompilation, AllRead, Target,
      RoutedAsIntended;
    assert r.matches[0] in r.matches;
    var raw, m;
    raw, m, call := CollidingRuleWidens(lib, r.matches[0], workloads, base);
    raws, routes := OneRuleCompiles(lib, r, workloads, raw, m);
    OnlyTarget(lib, m, r.name, r.targetPolicy, ConfigWith(hc, routes), call);
    NotIntended(lib, r, workloads, hc, call);
  }

  /**
   For a route with one rule, which some request meets apart from its headers and whose target is not the fallback
   anyway: requests go where they should if and only if header names that differ only in case ask for the same.
   */
  lemma RoutesRightlyIffNamesAgree(lib: Library, r: HyperRoute, workloads: bool, hc: HyperConfig, base: Call)
    requires ValidRoute(lib, r, workloads) && |r.matches| == 1 && MeetsRest(lib, r.matches[0], base)
    requires !IsFallback(hc, base.traffic, r.targetPolicy)
    ensures RoutesRightly(lib, [r], workloads, hc) <==> NamesAgree(r.matches[0].headers)
  {
    hide NamesAgree, ValidRoute, MeetsRest, IsFallback, IsCompilation, AllRead, Target, RoutedAsIntended;
    if NamesAgree(r.matches[0].headers) {
      assert HeadersAgree(r);
      AgreeingRoutesRightly(lib, [r], workloads, hc);
    } else {
      var raws, routes, call := CollidingRouteMisroutes(lib, r, workloads, hc, base);
    }
  }
}
