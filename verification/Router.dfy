/**
 First-match routing of a request to a chain (internal/router/matcher.go, internal/config/routing.go).
 */
module Router {
  import opened Basics
  import opened RefCounts
  import opened IdentityTables
  import opened EngineIndex
  import opened Selectors

  datatype Traffic = AnyTraffic | NorthSouth | EastWest

  /** The traffic class as written in a config. */
  datatype TrafficField = Omitted | Class(class': Traffic) | Unrecognised

  /** Regular expressions, as the regexp library understands them. */
  datatype Library = Library(valid: string -> bool, matches: (string, string) -> bool)

  /** What routing looks at. */
  datatype Call = Call(
    traffic: Traffic, path: string, clientAddr: Addr, source: Option<EngineWorkload>,
    destinationAddr: Addr, host: string, destinationServices: set<ServiceRef>, headers: map<string, string>)

  datatype HeaderRule = HeaderRule(exact: string, regex: Option<string>)

  /** One match of a loaded route; the compiled fields are filled when the config is parsed. */
  datatype MatchConfig = MatchConfig(
    traffic: TrafficField, sources: seq<Written>, destinations: seq<Written>,
    compiledTraffic: Traffic, compiledSources: Option<Set>, compiledDestinations: Option<Set>,
    pathPrefix: string, compiledPathRegex: Option<string>, headers: map<string, HeaderRule>)

  datatype RouteConfig = RouteConfig(name: string, matches: seq<MatchConfig>, targetChain: string)

  datatype RouterConfig = RouterConfig(
    routes: seq<RouteConfig>, northSouth: string, eastWest: string, defaultChain: string, other: string)

  /*** Matching ***/

  predicate TrafficMatches(m: MatchConfig, traffic: Traffic) {
    if m.compiledTraffic != AnyTraffic then m.compiledTraffic == traffic
    else m.traffic == Omitted || m.traffic == Class(AnyTraffic)
  }

  predicate PathMatches(lib: Library, prefix: string, regex: Option<string>, path: string) {
    && prefix <= path
    && (regex.Some? ==> lib.matches(regex.value, path))
  }

  predicate HeaderSatisfies(lib: Library, rule: HeaderRule, value: string) {
    || rule.exact == "*"
    || ((rule.exact == "" || value == rule.exact) && (rule.regex.Some? ==> lib.matches(rule.regex.value, value)))
  }

  predicate HeadersMatch(lib: Library, rules: map<string, HeaderRule>, headers: map<string, string>) {
    forall k | k in rules :: k in headers && HeaderSatisfies(lib, rules[k], headers[k])
  }

  /** External means not a workload; an east-west caller missing from the map does not count. */
  predicate ExternalAllowed(call: Call) {
    call.source.None? && call.traffic != EastWest
  }

  /** Selectors that were never compiled must not widen the match. */
  predicate Uncompiled(m: MatchConfig) {
    || (m.sources != [] && m.compiledSources.None?)
    || (m.destinations != [] && m.compiledDestinations.None?)
  }

  predicate EntryMatches(lib: Library, m: MatchConfig, call: Call) {
    && TrafficMatches(m, call.traffic) && PathMatches(lib, m.pathPrefix, m.compiledPathRegex, call.path)
    && !Uncompiled(m)
    && SourceMatches(m.compiledSources, call.clientAddr, call.source, ExternalAllowed(call))
    && DestinationMatches(m.compiledDestinations, call.destinationAddr, call.host, call.destinationServices)
    && HeadersMatch(lib, m.headers, call.headers)
  }

  predicate RouteMatches(lib: Library, r: RouteConfig, call: Call) {
    exists m | m in r.matches :: EntryMatches(lib, m, call)
  }

  method Matches(lib: Library, m: MatchConfig, call: Call) returns (r: bool)
    ensures r <==> EntryMatches(lib, m, call)
  {
    hide SourceMatches, DestinationMatches;
    if !TrafficMatches(m, call.traffic) {
      return false;
    }
    if m.pathPrefix != "" && !(m.pathPrefix <= call.path) {
      return false;
    }
    if m.compiledPathRegex.Some? && !lib.matches(m.compiledPathRegex.value, call.path) {
      return false;
    }
    if Uncompiled(m) {
      return false;
    }
    var source := MatchSource(m.compiledSources, call.clientAddr, call.source, ExternalAllowed(call));
    if !source {
      return false;
    }
    var destination := MatchDestination(m.compiledDestinations, call.destinationAddr, call.host,
                                        call.destinationServices);
    if !destination {
      return false;
    }
    var todo := m.headers.Keys;
    while todo != {}
      invariant todo <= m.headers.Keys
      invariant forall k | k in m.headers && k !in todo ::
                  k in call.headers && HeaderSatisfies(lib, m.headers[k], call.headers[k])
    {
      var k :| k in todo;
      todo := todo - {k};
      if k !in call.headers {
        return false;
      }
      var rule, value := m.headers[k], call.headers[k];
      if rule.exact == "*" {
        continue;
      }
      if rule.exact != "" && value != rule.exact {
        return false;
      }
      if rule.regex.Some? && !lib.matches(rule.regex.value, value) {
        return false;
      }
    }
    return true;
  }

  /** The fallback for the traffic class, then the general one, then `other`. */
  function DefaultChain(rc: RouterConfig, traffic: Traffic): string {
    if traffic == NorthSouth && rc.northSouth != "" then rc.northSouth
    else if traffic == EastWest && rc.eastWest != "" then rc.eastWest
    else if rc.defaultChain != "" then rc.defaultChain
    else rc.other
  }

  /** Route `i` is the first that matches. */
  ghost predicate IsFirst(lib: Library, routes: seq<RouteConfig>, call: Call, i: nat) {
    i < |routes| && RouteMatches(lib, routes[i], call) && forall j | 0 <= j < i :: !RouteMatches(lib, routes[j], call)
  }

  /** The target of the first matching route, else `fallback`. */
  function TargetIn(lib: Library, routes: seq<RouteConfig>, call: Call, fallback: string): string {
    if routes == [] then fallback
    else if RouteMatches(lib, routes[0], call) then routes[0].targetChain
    else TargetIn(lib, routes[1..], call, fallback)
  }

  lemma {:induction false} TargetOfFirst(lib: Library, routes: seq<RouteConfig>, call: Call, fallback: string, i: nat)
    requires IsFirst(lib, routes, call, i)
    ensures TargetIn(lib, routes, call, fallback) == routes[i].targetChain
  {
    hide RouteMatches;
    if i > 0 {
      assert !RouteMatches(lib, routes[0], call);
      assert IsFirst(lib, routes[1..], call, i - 1);
      TargetOfFirst(lib, routes[1..], call, fallback, i - 1);
    }
  }

  lemma {:induction false} TargetOfNone(lib: Library, routes: seq<RouteConfig>, call: Call, fallback: string)
    requires forall r | r in routes :: !RouteMatches(lib, r, call)
    ensures TargetIn(lib, routes, call, fallback) == fallback
  {
    hide RouteMatches;
    if routes != [] {
      TargetOfNone(lib, routes[1..], call, fallback);
    }
  }

  function Target(lib: Library, rc: RouterConfig, call: Call): string {
    TargetIn(lib, rc.routes, call, DefaultChain(rc, call.traffic))
  }

  /** The target of the first matching route, else the default; also the name of the route that matched. */
  method RouteWith(lib: Library, rc: RouterConfig, call: Call) returns (target: string, matched: Option<string>)
    ensures target == Target(lib, rc, call)
    ensures forall i: nat | IsFirst(lib, rc.routes, call, i) ::
              target == rc.routes[i].targetChain && matched == Some(rc.routes[i].name)
    ensures matched.None? && call.traffic == NorthSouth && rc.northSouth != "" ==> target == rc.northSouth
    ensures matched.None? && call.traffic == EastWest && rc.eastWest != "" ==> target == rc.eastWest
    ensures matched.None? && (call.traffic == NorthSouth ==> rc.northSouth == "")
            && (call.traffic == EastWest ==> rc.eastWest == "")
            ==> target == if rc.defaultChain != "" then rc.defaultChain else rc.other
    ensures matched.None? <==> forall r | r in rc.routes :: !RouteMatches(lib, r, call)
  {
    hide EntryMatches;
    for i := 0 to |rc.routes|
      invariant forall j | 0 <= j < i :: !RouteMatches(lib, rc.routes[j], call)
    {
      var r := rc.routes[i];
      for j := 0 to |r.matches|
        invariant forall m | m in r.matches[..j] :: !EntryMatches(lib, m, call)
      {
        var ok := Matches(lib, r.matches[j], call);
        if ok {
          assert r.matches[j] in r.matches && r in rc.routes;
          TargetOfFirst(lib, rc.routes, call, DefaultChain(rc, call.traffic), i);
          return r.targetChain, Some(r.name);
        }
      }
      assert r.matches[..|r.matches|] == r.matches;
    }
    TargetOfNone(lib, rc.routes, call, DefaultChain(rc, call.traffic));
    return DefaultChain(rc, call.traffic), None;
  }
}
