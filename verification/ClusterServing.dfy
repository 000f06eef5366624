/**
 From the objects of a cluster to the answer a request gets: the config the operator compiled is loaded into a
 snapshot whose chains and routing are the config's (internal/policy/manager.go, internal/filters/deny/deny.go), and
 a stream over it denies whatever has no working chain (internal/grpc/handlers.go).
 */
module ClusterServing {
  import opened Basics
  import opened ChainExecution
  import opened ExtProcStream
  import Router
  import RouteCompiler
  import RoutingRefinement
  import opened IdentityResolution
  import AuditExactness

  /*** Loading filters ***/

  /** A deny filter without conditions, with its defaults; it runs on request headers. */
  function NewDenyFilter(statusCode: nat, body: string): Filter {
    var status := if statusCode == 0 then 403 else statusCode;
    var text := if body == "" then "Forbidden" else body;
    Filter(
      Some([RequestHeaders]),
      (m: Moment, r: Request) =>
        Outcome(r.(verdict := r.verdict.(blocked := true, status := status, body := text)), false))
  }

  /** The filter factory; `others` makes every filter but unconditional denials. */
  function NewFilter(others: RouteCompiler.FilterConfig -> Filter, fc: RouteCompiler.FilterConfig): Filter {
    if fc.type' == "deny" && fc.options.DenyWith? then NewDenyFilter(fc.options.status, fc.options.body) else others(fc)
  }

  function LoadedChain(others: RouteCompiler.FilterConfig -> Filter, chain: RouteCompiler.Chain): seq<Link> {
    seq(|chain|, i requires 0 <= i < |chain| => Link(NewFilter(others, chain[i]), chain[i].audit))
  }

  function LoadedAction(action: string): Action {
    if action == "allow" then Allow else Deny
  }

  function LoadedLimits(durations: RouteCompiler.Durations, c: RouteCompiler.ChainSettings): Limits {
    var d := durations(c.timeout);
    Limits(
      if c.maxConcurrency > 0 then c.maxConcurrency else 0, LoadedAction(c.onOverload),
      if c.timeout != "" && d.Some? && d.value > 0 then d.value else 0, LoadedAction(c.onTimeout))
  }

  /** What routing looks at, once caller and target are resolved. */
  function CallOf(identity: Identity, a: Arrival, r: Request): Router.Call {
    Router.Call(
      TrafficOf(identity, a), r.mutations.path, a.clientAddr, SourceOf(identity, a), a.destinationAddr, a.host,
      DestinationOf(identity, a), r.unsaved.headers)
  }

  /**
   The snapshot of a config: every chain with its filters, every limit, and the config's own routing of the callers
   and targets that `identity` knows. `arrivalOf` reads addresses, host and class of a request.
   */
  function Loaded(
    lib: Router.Library, durations: RouteCompiler.Durations, others: RouteCompiler.FilterConfig -> Filter,
    identity: Identity, arrivalOf: Request -> Arrival, cfg: RouteCompiler.EngineConfig,
    rc: Router.RouterConfig): Snapshot
  {
    Snapshot(
      Some(Config(
             (r: Request) => Router.Target(lib, rc, CallOf(identity, arrivalOf(r), r)),
             (r: Request) => IsUnknown(identity, arrivalOf(r), cfg.admitUnknown),
             map n | n in cfg.settings :: LoadedLimits(durations, cfg.settings[n]))),
      map n | n in cfg.chains :: LoadedChain(others, cfg.chains[n]))
  }

  lemma DegradedIsDenial(others: RouteCompiler.FilterConfig -> Filter)
    ensures LoadedChain(others, RouteCompiler.DEGRADED) == [Link(NewDenyFilter(503, UNAVAILABLE), false)]
  {
  }

  /*** Denials ***/

  ghost predicate Is503(r: Reply) {
    r.Immediate? && r.status == 503 && r.body == UNAVAILABLE
  }

  lemma DenialBlocks(s: State)
    requires !s.request.verdict.blocked
    ensures var (t, failed) := Execute(s, [Link(NewDenyFilter(503, UNAVAILABLE), false)], RequestHeaders);
            && !failed
            && t.request.verdict == s.request.verdict.(blocked := true, status := 503, body := UNAVAILABLE)
  {
    AuditExactness.OneLink(s, Link(NewDenyFilter(503, UNAVAILABLE), false), RequestHeaders);
  }

  /** A stream whose route leads to such a chain, without limits, answers the request headers with 503. */
  lemma DenyingChainAnswers503(snap: Snapshot, s: State, m: Message, env: Env, name: string)
    requires m.RequestHeadersMsg? && s.request.verdict == QUIET && snap.config.Some?
    requires snap.config.value.route(Received(Opened(s), m).ctx.request) == name && name != ""
    requires name in snap.chains && snap.chains[name] == [Link(NewDenyFilter(503, UNAVAILABLE), false)]
    requires name !in snap.config.value.settings
    ensures Is503(ReplyTo(Handled(snap, Opened(s), m, env), RequestHeaders))
  {
    hide Received, NewDenyFilter;
    ReceivingKeepsRoute(Opened(s), m);
    var v := Received(Opened(s), m);
    if !snap.config.value.unknownSource(v.ctx.request) {
      DenialBlocks(v.ctx);
    }
  }

  /** So does a stream whose caller must be known and is not. */
  lemma UnknownCallerAnswers503(snap: Snapshot, s: State, m: Message, env: Env)
    requires m.RequestHeadersMsg? && s.request.verdict == QUIET && snap.config.Some?
    requires snap.config.value.unknownSource(Received(Opened(s), m).ctx.request)
    ensures Is503(ReplyTo(Handled(snap, Opened(s), m, env), RequestHeaders))
  {
    hide Received;
    ReceivingKeepsRoute(Opened(s), m);
  }

  /** Some HyperChain of that name compiles. */
  ghost predicate Works(
    catalog: RouteCompiler.Catalog, durations: RouteCompiler.Durations, chainList: seq<RouteCompiler.HyperChain>,
    name: string)
  {
    exists c | c in chainList :: c.name == name && RouteCompiler.Compiles(catalog, durations, c)
  }

  /** A target without a working HyperChain has the denying chain in every compiled config, and no limits. */
  lemma BrokenTargetDenies(
    catalog: RouteCompiler.Catalog, durations: RouteCompiler.Durations, chainList: seq<RouteCompiler.HyperChain>,
    chains: map<string, RouteCompiler.Chain>, limits: map<string, RouteCompiler.ChainSettings>,
    all: map<string, RouteCompiler.Chain>, name: string)
    requires RouteCompiler.UniqueNames(chainList)
    requires RouteCompiler.ChainsOf(catalog, durations, chainList, chains, limits)
    requires RouteCompiler.OnlyDegraded(chains, all) && name in all && !Works(catalog, durations, chainList, name)
    ensures all[name] == RouteCompiler.DEGRADED && name !in limits
  {
    hide RouteCompiler.Compiles, RouteCompiler.IsCompiled;
    RoutingRefinement.ChainsAreFor(catalog, durations, chainList, chains, limits, all, name);
  }

  /**
   Compiles a cluster, loads one config, opens a stream and handles the headers of one request. The request is routed
   as the HyperRoutes say, with header names folded. If the policy it is routed to is missing or does not compile, or
   the caller must be known and is not, the answer is 503.
   */
  method ServeThroughCluster(
    lib: Router.Library, catalog: RouteCompiler.Catalog, durations: RouteCompiler.Durations, workloads: bool,
    chainList: seq<RouteCompiler.HyperChain>, items: seq<RouteCompiler.HyperRoute>,
    sortedRoutes: seq<RouteCompiler.HyperRoute>, configs: map<string, RouteCompiler.HyperConfig>, ns: string,
    others: RouteCompiler.FilterConfig -> Filter, identity: Identity, arrivalOf: Request -> Arrival,
    s: State, m: Message, env: Env)
    returns (target: string, reply: Reply)
    requires RouteCompiler.UniqueNames(chainList) && RoutingRefinement.IsSorting(items, sortedRoutes) && ns in configs
    requires m.RequestHeadersMsg? && s.request.verdict == QUIET
    ensures var r := Received(Opened(s), m).ctx.request;
            var a := arrivalOf(r);
            var call := Router.Call(TrafficOf(identity, a), r.mutations.path, a.clientAddr, SourceOf(identity, a),
                                    a.destinationAddr, a.host, DestinationOf(identity, a), r.unsaved.headers);
            && RoutingRefinement.RoutedAsFolded(lib, sortedRoutes, workloads, configs[ns], call, target)
            && (RoutingRefinement.ValidHeadersAgree(lib, items, workloads) ==>
                  RoutingRefinement.RoutedAsIntended(lib, items, workloads, configs[ns], call, target))
            && (IsUnknown(identity, a, configs[ns].admitUnknown) ==> Is503(reply))
    ensures target != "" && !Works(catalog, durations, chainList, target) ==> Is503(reply)
  {
    hide RouteCompiler.ChainsOf, RouteCompiler.IsCompilation, RouteCompiler.OnlyDegraded;
    hide RouteCompiler.ReferencesDefined, Router.RouteMatches;
    hide RoutingRefinement.ValidHeadersAgree, RoutingRefinement.AllRead, RoutingRefinement.RoutedAsIntended,
      RoutingRefinement.RoutedAsFolded;
    hide Works, Received, Handled, ReplyTo, RoutingRefinement.IsRoute;
    var out, chains, limits, raws, origin :=
      RouteCompiler.Reconcile(lib, catalog, durations, workloads, chainList, sortedRoutes, configs);
    var cfg := out[ns];
    assert RouteCompiler.IsConfigFor(chains, limits, raws, configs[ns], cfg);
    var rc := RoutingRefinement.ParseConfig(lib, durations, cfg, workloads);
    var snap := Loaded(lib, durations, others, identity, arrivalOf, cfg, rc.value);
    var stream := new Stream(snap, s);
    reply := stream.HandleRequestHeaders(m, env);
    var r := Received(Opened(s), m).ctx.request;
    var call := CallOf(identity, arrivalOf(r), r);
    target := Router.Target(lib, rc.value, call);
    ghost var matched := RoutingRefinement.TargetIsRoute(lib, rc.value, call);
    RoutingRefinement.RoutingIsFolded(
      lib, sortedRoutes, raws, origin, rc.value, workloads, configs[ns], call, target, matched);
    if RoutingRefinement.ValidHeadersAgree(lib, items, workloads) {
      RoutingRefinement.RoutingIsIntended(
        lib, items, sortedRoutes, raws, origin, rc.value, workloads, configs[ns], call, target, matched);
    }
    RoutingRefinement.TargetIsDefined(lib, cfg, rc.value, call, target, matched);
    if IsUnknown(identity, arrivalOf(r), configs[ns].admitUnknown) {
      UnknownCallerAnswers503(snap, s, m, env);
    }
    if target != "" && !Works(catalog, durations, chainList, target) {
      BrokenTargetDenies(catalog, durations, chainList, chains, limits, cfg.chains, target);
      DegradedIsDenial(others);
      DenyingChainAnswers503(snap, s, m, env, target);
    }
  }
}
