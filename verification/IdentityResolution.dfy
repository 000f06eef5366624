/**
 Who calls whom: the engine's resolution of caller, target and traffic class from its identity index
 (internal/grpc/handlers.go, internal/identity/index.go).
 */
module IdentityResolution {
  import opened Basics
  import opened RefCounts
  import opened IdentityTables
  import opened EngineIndex
  import opened Router
  import DeltaSync
  import EngineReplica

  /** What is known of a request before the index is asked; `metadata` is `AnyTraffic` if the proxy sent no class. */
  datatype Arrival = Arrival(metadata: Traffic, clientAddr: Addr, destinationAddr: Addr, host: string)

  type Identity = Option<EngineReplica.Engine>

  predicate IsPod(w: Option<EngineWorkload>) {
    w.Some? && w.value.kind.KindPod?
  }

  /*** Service names in hosts ***/

  function TrimSuffix(s: string, suffix: string): string {
    if |suffix| <= |s| && s[|s| - |suffix|..] == suffix then s[..|s| - |suffix|] else s
  }

  /** The text before and after the first dot. */
  function Cut(s: string): Option<(string, string)> {
    if s == "" then None
    else if s[0] == '.' then Some(("", s[1..]))
    else
      match Cut(s[1..])
      case None => None
      case Some(parts) => Some(([s[0]] + parts.0, parts.1))
  }

  lemma {:induction false} CutSplits(s: string)
    ensures Cut(s).None? <==> '.' !in s
    ensures Cut(s).Some? ==> '.' !in Cut(s).value.0 && s == Cut(s).value.0 + "." + Cut(s).value.1
  {
    if s != "" && s[0] != '.' {
      CutSplits(s[1..]);
      assert s == [s[0]] + s[1..];
    }
  }

  /** The Service a cluster-local host names: `<svc>.<ns>`, with or without `.svc` and `.cluster.local`. */
  function HostNames(host: string): Option<ServiceRef> {
    match Cut(TrimSuffix(TrimSuffix(host, ".cluster.local"), ".svc"))
    case None => None
    case Some(parts) =>
      if parts.0 == "" || parts.1 == "" || '.' in parts.1 then None else Some(ServiceRef(parts.1, parts.0))
  }

  lemma TrimsItsSuffix(s: string, suffix: string)
    ensures TrimSuffix(s + suffix, suffix) == s
  {
    assert (s + suffix)[|s|..] == suffix && (s + suffix)[..|s|] == s;
  }

  lemma {:induction false} CutAtFirst(name: string, rest: string)
    requires '.' !in name
    ensures Cut(name + "." + rest) == Some((name, rest))
  {
    var s := name + "." + rest;
    if name == "" {
      assert s[0] == '.' && s[1..] == rest;
    } else {
      CutAtFirst(name[1..], rest);
      assert s[0] == name[0] && s[1..] == name[1..] + "." + rest;
      assert name == [name[0]] + name[1..];
    }
  }

  /** The full local name of a Service leads back to it. */
  lemma FullHostNamesItsService(ref: ServiceRef)
    requires ref.name != "" && ref.namespace != "" && '.' !in ref.name && '.' !in ref.namespace
    ensures HostNames(ref.name + "." + ref.namespace + ".svc" + ".cluster.local") == Some(ref)
  {
    hide TrimSuffix, Cut;
    var host := ref.name + "." + ref.namespace;
    TrimsItsSuffix(host + ".svc", ".cluster.local");
    TrimsItsSuffix(host, ".svc");
    CutAtFirst(ref.name, ref.namespace);
  }

  /*** Resolution ***/

  function SourceOf(identity: Identity, a: Arrival): Option<EngineWorkload> {
    if identity.None? then None else LookupIn(identity.value.workloads, a.clientAddr)
  }

  /** The class the proxy sent; else a caller that is an indexed pod is east-west and any other north-south. */
  function TrafficOf(identity: Identity, a: Arrival): (t: Traffic)
    ensures t != AnyTraffic
    ensures a.metadata == AnyTraffic ==> (t == EastWest <==> IsPod(SourceOf(identity, a)))
  {
    if a.metadata != AnyTraffic then a.metadata
    else if IsPod(SourceOf(identity, a)) then EastWest
    else NorthSouth
  }

  function KeyOf(s: Service): ServiceRef {
    ServiceRef(s.namespace, s.name)
  }

  /** The Service of the cluster IP, else those of the pod behind the address, else the one the host names. */
  function DestinationOf(identity: Identity, a: Arrival): set<ServiceRef> {
    if identity.None? then {}
    else
      var e := identity.value;
      var service, pod, named :=
        ServiceIn(e.reverse, a.destinationAddr), LookupIn(e.workloads, a.destinationAddr), HostNames(a.host);
      if service.Some? then {KeyOf(service.value)}
      else if IsPod(pod) then pod.value.services
      else if named.Some? && named.value in e.services then {KeyOf(ValueOf(e.services[named.value]))}
      else {}
  }

  /** A caller that must be known and is not. */
  predicate IsUnknown(identity: Identity, a: Arrival, admitUnknown: bool) {
    identity.Some? && TrafficOf(identity, a) == EastWest && SourceOf(identity, a).None? && !admitUnknown
  }

  method ResolveIdentity(identity: Identity, a: Arrival)
    returns (traffic: Traffic, source: Option<EngineWorkload>, services: set<ServiceRef>)
    ensures traffic == TrafficOf(identity, a) && source == SourceOf(identity, a)
    ensures services == DestinationOf(identity, a)
  {
    traffic, source, services := a.metadata, None, {};
    var inferred := traffic == AnyTraffic;
    if inferred {
      traffic := NorthSouth;
    }
    if identity.None? {
      return;
    }
    var e := identity.value;
    source := LookupIn(e.workloads, a.clientAddr);
    if inferred && IsPod(source) {
      traffic := EastWest;
    }
    var service := ServiceIn(e.reverse, a.destinationAddr);
    if service.Some? {
      services := {KeyOf(service.value)};
    } else {
      var pod := LookupIn(e.workloads, a.destinationAddr);
      if IsPod(pod) {
        services := pod.value.services;
      } else {
        var named := HostNames(a.host);
        if named.Some? && named.value in e.services {
          services := {KeyOf(ValueOf(e.services[named.value]))};
        }
      }
    }
  }

  /**
   When settled, an engine decides about callers by the operator's truth: the caller is the workload the operator's
   base tables give for its address, and without a class from the proxy it is east-west exactly if that is a pod.
   */
  lemma SettledCallersAreTrue(
    run: seq<DeltaSync.State>, engines: seq<EngineReplica.Engine>, o: Options, ops: seq<EngineReplica.Operator>,
    a: Arrival)
    requires EngineReplica.IsEngineRun(run, engines) && EngineReplica.AllPublish(o, ops, run)
    requires DeltaSync.Settled(run[|run| - 1])
    ensures var identity, op := Some(engines[|run| - 1]), ops[|run| - 1];
            var answer := Answer(o, op.tables, op.nodeIP, Unmap(a.clientAddr));
            && EngineReplica.SameAnswer(answer, SourceOf(identity, a))
            && (a.metadata == AnyTraffic ==>
                  (TrafficOf(identity, a) == EastWest <==> answer.Some? && answer.value.kind.KindPod?))
  {
    hide Answer, LookupIn, EngineReplica.NextWith, EngineReplica.Publishes;
    EngineReplica.SettledLookupsAgree(run, engines, o, ops, a.clientAddr);
  }
}
