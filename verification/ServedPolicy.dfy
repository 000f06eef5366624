/**
 What the engine enforces of a HyperChain (hyper-operator/internal/controller/hyperchain_master_compiler.go,
 internal/config/parser.go, internal/filters/deny/deny.go): its filters in order, audited as declared, and its limits,
 from the cluster object to the loaded snapshot.
 */
module ServedPolicy {
  import opened Basics
  import opened ChainExecution
  import opened ExtProcStream
  import opened IdentityResolution
  import opened ClusterServing
  import Router
  import RouteCompiler

  /** The engine's name for a kind of filter object. */
  ghost predicate IsTypeOf(kind: string, name: string) {
    (kind, name) in {
      ("RateLimitFilter", "embedded_rate_limiter"), ("HeaderModifierFilter", "header_modifier"), ("DenyFilter", "deny"),
      ("CorrelationIdFilter", "correlation_id"), ("RedisMetadataEnricherFilter", "redis_metadata_enricher"),
      ("ApiKeyFilter", "api_key"), ("ExternalAuthFilter", "external_auth"), ("FirewallFilter", "firewall"),
      ("JwtAuthFilter", "jwt_auth"), ("CorsFilter", "cors")}
  }

  lemma TypesAreNamed(kind: string, name: string)
    ensures RouteCompiler.TypeOf(kind) == Some(name) <==> IsTypeOf(kind, name)
  {
  }

  /** A HyperChain compiles if and only if all its filters are of known kinds and exist and its timeout is positive. */
  lemma CompilesIff(catalog: RouteCompiler.Catalog, durations: RouteCompiler.Durations, c: RouteCompiler.HyperChain)
    ensures RouteCompiler.Compiles(catalog, durations, c) <==>
            && (forall ref | ref in c.filters ::
                  (exists name :: IsTypeOf(ref.kind, name)) && (ref.kind, ref.name) in catalog)
            && (c.timeout != "" ==> durations(c.timeout).Some? && durations(c.timeout).value > 0)
  {
    hide RouteCompiler.TypeOf, IsTypeOf;
    forall ref | ref in c.filters
      ensures RouteCompiler.TypeOf(ref.kind).Some? <==> exists name :: IsTypeOf(ref.kind, name)
    {
      if RouteCompiler.TypeOf(ref.kind).Some? {
        TypesAreNamed(ref.kind, RouteCompiler.TypeOf(ref.kind).value);
      }
      if name :| IsTypeOf(ref.kind, name) {
        TypesAreNamed(ref.kind, name);
      }
    }
  }

  /** The engine accepts limits with a good timeout, no negative number, and the two known actions or none. */
  lemma SettingsAcceptedIff(durations: RouteCompiler.Durations, s: RouteCompiler.ChainSettings)
    ensures RouteCompiler.GoodSettings(durations, s) <==>
            && (s.timeout != "" ==> durations(s.timeout).Some? && durations(s.timeout).value > 0)
            && s.maxConcurrency >= 0
            && s.onTimeout in {"", "allow", "deny"} && s.onOverload in {"", "allow", "deny"}
  {
  }

  /*** Deny filters ***/

  /** The filter runs on request headers and blocks every request with this status and text. */
  ghost predicate Denies(f: Filter, status: nat, text: string) {
    && f.phases == Some([RequestHeaders])
    && forall m: Moment, r: Request ::
         var o := f.run(m, r);
         && !o.failed && o.request.mutations == r.mutations && o.request.unsaved == r.unsaved
         && o.request.verdict.blocked && o.request.verdict.answered == r.verdict.answered
         && o.request.verdict.status == status && o.request.verdict.body == text
  }

  /** A deny filter without conditions denies with its status and text, by default 403 and Forbidden. */
  lemma DenyFilterDenies(status: nat, body: string)
    ensures Denies(NewDenyFilter(status, body), if status == 0 then 403 else status,
                   if body == "" then "Forbidden" else body)
  {
  }

  /*** Chains ***/

  /** Position `i` of the loaded chain is what the HyperChain declares there. */
  ghost predicate LinkAsDeclared(catalog: RouteCompiler.Catalog, others: RouteCompiler.FilterConfig -> Filter,
                                 c: RouteCompiler.HyperChain, i: nat, l: Link)
    requires i < |c.filters|
  {
    var ref := c.filters[i];
    && (ref.kind, ref.name) in catalog
    && l.audited == (match ref.audit case Some(b) => b case None => c.auditMode)
    && var options := catalog[(ref.kind, ref.name)];
       if ref.kind == "DenyFilter" && options.DenyWith? then l.filter == NewDenyFilter(options.status, options.body)
       else exists fc :: && l.filter == others(fc) && fc.name == ref.kind + "/" + ref.name && fc.options == options
                         && IsTypeOf(ref.kind, fc.type') && fc.audit == l.audited
  }

  lemma LinkIsAsDeclared(catalog: RouteCompiler.Catalog, others: RouteCompiler.FilterConfig -> Filter,
                         c: RouteCompiler.HyperChain, chain: RouteCompiler.Chain, i: nat)
    requires RouteCompiler.IsCompiled(catalog, c, chain) && i < |c.filters|
    ensures |LoadedChain(others, chain)| == |c.filters|
            && LinkAsDeclared(catalog, others, c, i, LoadedChain(others, chain)[i])
  {
    var ref, fc := c.filters[i], chain[i];
    assert fc == RouteCompiler.FilterOf(catalog, c, ref);
    TypesAreNamed(ref.kind, fc.type');
    TypesAreNamed("DenyFilter", "deny");
    OnlyDenyIsDeny(ref.kind);
    hide RouteCompiler.TypeOf, IsTypeOf;
    assert IsTypeOf(ref.kind, fc.type');
    assert LoadedChain(others, chain)[i].filter == NewFilter(others, fc);
  }

  lemma OnlyDenyIsDeny(kind: string)
    ensures RouteCompiler.TypeOf(kind) == Some("deny") <==> kind == "DenyFilter"
  {
  }

  /*** Limits ***/

  /** These limits are the HyperChain's: none where it sets none, and let through only where it says Allow. */
  ghost predicate LimitsAsDeclared(durations: RouteCompiler.Durations, c: RouteCompiler.HyperChain, limits: Limits) {
    && limits.maxConcurrency == c.maxConcurrency
    && (c.timeout == "" ==> limits.timeout == 0)
    && (c.timeout != "" ==> durations(c.timeout).Some? && limits.timeout == durations(c.timeout).value > 0)
    && (limits.maxConcurrency > 0 ==> (limits.onOverload == Allow <==> c.onOverload == RouteCompiler.Allow))
    && (limits.timeout > 0 ==> (limits.onTimeout == Allow <==> c.onTimeout == RouteCompiler.Allow))
  }

  lemma SettingsAreDeclared(catalog: RouteCompiler.Catalog, durations: RouteCompiler.Durations,
                            c: RouteCompiler.HyperChain)
    requires RouteCompiler.Compiles(catalog, durations, c)
    ensures LimitsAsDeclared(durations, c, LoadedLimits(durations, RouteCompiler.SettingsOf(c)))
  {
  }

  /**
   From the cluster to the snapshot: every HyperChain that compiles is loaded with its filters in order, audited as
   declared, and the engine enforces exactly its limits.
   */
  lemma ServedAsDeclared(
    lib: Router.Library, catalog: RouteCompiler.Catalog, durations: RouteCompiler.Durations,
    others: RouteCompiler.FilterConfig -> Filter, identity: Identity, arrivalOf: Request -> Arrival,
    chainList: seq<RouteCompiler.HyperChain>, chains: map<string, RouteCompiler.Chain>,
    limits: map<string, RouteCompiler.ChainSettings>, raws: seq<RouteCompiler.RawRoute>,
    hc: RouteCompiler.HyperConfig, cfg: RouteCompiler.EngineConfig, rc: Router.RouterConfig,
    c: RouteCompiler.HyperChain)
    requires RouteCompiler.UniqueNames(chainList)
    requires RouteCompiler.ChainsOf(catalog, durations, chainList, chains, limits)
    requires RouteCompiler.IsConfigFor(chains, limits, raws, hc, cfg)
    requires c in chainList && RouteCompiler.Compiles(catalog, durations, c)
    ensures var snap := Loaded(lib, durations, others, identity, arrivalOf, cfg, rc);
            && LimitsAsDeclared(durations, c, LimitsOf(snap, c.name))
            && c.name in snap.chains && |snap.chains[c.name]| == |c.filters|
            && forall i | 0 <= i < |c.filters| :: LinkAsDeclared(catalog, others, c, i, snap.chains[c.name][i])
  {
    var snap := Loaded(lib, durations, others, identity, arrivalOf, cfg, rc);
    hide RouteCompiler.Compiles, RouteCompiler.IsCompiled, LinkAsDeclared, RouteCompiler.SettingsOf, LimitsAsDeclared,
      LoadedLimits;
    assert cfg.chains[c.name] == chains[c.name] && snap.chains[c.name] == LoadedChain(others, chains[c.name]);
    LimitsAreServed(catalog, durations, chainList, chains, limits, c);
    assert LimitsOf(snap, c.name) ==
           if c.name in limits then LoadedLimits(durations, limits[c.name]) else NO_LIMITS;
    LengthIsSame(catalog, c, chains[c.name]);
    forall i | 0 <= i < |c.filters| ensures LinkAsDeclared(catalog, others, c, i, snap.chains[c.name][i]) {
      LinkIsAsDeclared(catalog, others, c, chains[c.name], i);
    }
  }

  lemma LengthIsSame(catalog: RouteCompiler.Catalog, c: RouteCompiler.HyperChain, chain: RouteCompiler.Chain)
    requires RouteCompiler.IsCompiled(catalog, c, chain)
    ensures |chain| == |c.filters|
  {
  }

  lemma LimitsAreServed(
    catalog: RouteCompiler.Catalog, durations: RouteCompiler.Durations, chainList: seq<RouteCompiler.HyperChain>,
    chains: map<string, RouteCompiler.Chain>, limits: map<string, RouteCompiler.ChainSettings>,
    c: RouteCompiler.HyperChain)
    requires RouteCompiler.UniqueNames(chainList)
    requires RouteCompiler.ChainsOf(catalog, durations, chainList, chains, limits)
    requires c in chainList && RouteCompiler.Compiles(catalog, durations, c)
    ensures LimitsAsDeclared(durations, c,
                             if c.name in limits then LoadedLimits(durations, limits[c.name]) else NO_LIMITS)
  {
    if c.name in limits {
      var b :| b in chainList && b.name == c.name && RouteCompiler.Compiles(catalog, durations, b)
               && limits[c.name] == RouteCompiler.SettingsOf(b);
      SameName(chainList, b, c);
      SettingsAreDeclared(catalog, durations, c);
    }
  }

  lemma SameName(list: seq<RouteCompiler.HyperChain>, b: RouteCompiler.HyperChain, c: RouteCompiler.HyperChain)
    requires RouteCompiler.UniqueNames(list) && b in list && c in list && b.name == c.name
    ensures b == c
  {
    var i :| 0 <= i < |list| && list[i] == b;
    var j :| 0 <= j < |list| && list[j] == c;
    assert i == j;
  }
}
