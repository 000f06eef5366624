/**
 Who calls whom, in terms of addresses, workloads and host names (internal/grpc/handlers.go,
 internal/identity/index.go).
 */
module ResolutionMeaning {
  import opened Basics
  import opened RefCounts
  import opened IdentityTables
  import opened EngineIndex
  import opened Router
  import opened IdentityResolution

  /*** Callers ***/

  /** The index has this workload under the address, or under the IPv4 address mapped into it. */
  ghost predicate Knows(workloads: map<Addr, EngineWorkload>, ip: Addr, w: EngineWorkload) {
    match ip
    case Invalid => false
    case Mapped(bits) => V4(bits) in workloads && workloads[V4(bits)] == w
    case _ => ip in workloads && workloads[ip] == w
  }

  /** The caller is the workload the index knows for the client address, if it knows one. */
  lemma CallerIsKnown(identity: Identity, a: Arrival, w: EngineWorkload)
    ensures SourceOf(identity, a) == Some(w) <==> identity.Some? && Knows(identity.value.workloads, a.clientAddr, w)
  {
  }

  /** The class of traffic: as the proxy says, else by whether the caller is a pod the index knows. */
  lemma TrafficIsSettled(identity: Identity, a: Arrival)
    ensures a.metadata == NorthSouth ==> TrafficOf(identity, a) == NorthSouth
    ensures a.metadata == EastWest ==> TrafficOf(identity, a) == EastWest
    ensures a.metadata == AnyTraffic ==>
              (TrafficOf(identity, a) == EastWest <==>
               identity.Some? && exists w :: Knows(identity.value.workloads, a.clientAddr, w) && w.kind == KindPod)
    ensures TrafficOf(identity, a) in {NorthSouth, EastWest}
  {
    if IsPod(SourceOf(identity, a)) {
      assert Knows(identity.value.workloads, a.clientAddr, SourceOf(identity, a).value);
    }
    if identity.Some? {
      if w :| Knows(identity.value.workloads, a.clientAddr, w) && w.kind == KindPod {
        CallerIsKnown(identity, a, w);
      }
    }
  }

  /**
   A caller is refused as unknown exactly if the proxy says the traffic is from inside, there is an index, it does not
   know the client address, and the config does not admit unknown callers. A class that was inferred is never refused.
   */
  lemma UnknownIff(identity: Identity, a: Arrival, admitUnknown: bool)
    ensures IsUnknown(identity, a, admitUnknown) <==>
            && identity.Some? && a.metadata == EastWest && !admitUnknown
            && forall w :: !Knows(identity.value.workloads, a.clientAddr, w)
  {
    hide LookupIn;
    if SourceOf(identity, a).Some? {
      CallerIsKnown(identity, a, SourceOf(identity, a).value);
    } else {
      forall w ensures identity.Some? ==> !Knows(identity.value.workloads, a.clientAddr, w) {
        CallerIsKnown(identity, a, w);
      }
    }
  }

  /*** Targets ***/

  /** The reverse map leads from the address to this Service. */
  ghost predicate LeadsTo(byIP: Reverse, ip: Addr, s: StoredService) {
    match ip
    case Invalid => false
    case Mapped(bits) => V4(bits) in byIP && byIP[V4(bits)] == s
    case _ => ip in byIP && byIP[ip] == s
  }

  /**
   The target: the Service whose cluster IP was called; else the Services of the pod that was called; else the Service
   the host names, if there is one.
   */
  lemma TargetIsResolved(identity: Identity, a: Arrival, ref: ServiceRef)
    ensures identity.None? ==> DestinationOf(identity, a) == {}
    ensures identity.Some? ==>
              var e := identity.value;
              if exists s :: LeadsTo(e.reverse, a.destinationAddr, s) then
                ref in DestinationOf(identity, a) <==>
                exists s :: LeadsTo(e.reverse, a.destinationAddr, s) && ref == s.key
              else if exists w :: Knows(e.workloads, a.destinationAddr, w) && w.kind == KindPod then
                ref in DestinationOf(identity, a) <==>
                exists w :: Knows(e.workloads, a.destinationAddr, w) && ref in w.services
              else
                ref in DestinationOf(identity, a) <==>
                exists named :: HostNames(a.host) == Some(named) && named in e.services && ref == e.services[named].key
  {
    hide HostNames;
    if identity.Some? {
      var e := identity.value;
      var service, pod := ServiceIn(e.reverse, a.destinationAddr), LookupIn(e.workloads, a.destinationAddr);
      if service.Some? {
        assert LeadsTo(e.reverse, a.destinationAddr, e.reverse[Unmap(a.destinationAddr)]);
      }
      if pod.Some? {
        assert Knows(e.workloads, a.destinationAddr, pod.value);
      }
    }
  }

  /*** Hosts ***/

  /** A name without dots. */
  ghost predicate IsLabel(s: string) {
    s != "" && '.' !in s
  }

  /** The host is a cluster-local name of the Service, in one of the four usual spellings. */
  ghost predicate Spells(host: string, ref: ServiceRef) {
    var short := ref.name + "." + ref.namespace;
    && IsLabel(ref.name) && IsLabel(ref.namespace)
    && (host == short + ".svc" + ".cluster.local" || host == short + ".svc"
        || (ref.namespace != "svc" && (host == short || host == short + ".cluster.local")))
  }

  lemma TrimsOrKeeps(s: string, suffix: string)
    ensures var t := TrimSuffix(s, suffix); s == t + suffix || s == t
    ensures TrimSuffix(s, suffix) == s && suffix != "" ==> forall t: string :: s != t + suffix
  {
    forall t: string ensures s == t + suffix ==> TrimSuffix(s, suffix) == t {
      if s == t + suffix {
        TrimsItsSuffix(t, suffix);
      }
    }
  }

  lemma CutMeans(s: string, name: string, rest: string)
    ensures Cut(s) == Some((name, rest)) <==> '.' !in name && s == name + "." + rest
  {
    CutSplits(s);
    if '.' !in name && s == name + "." + rest {
      CutAtFirst(name, rest);
    }
  }

  /** After a dot, a dotted suffix of a two-part name is the whole second part. */
  lemma ShortEndsIn(name: string, ns: string, suffix: string, t: string)
    requires IsLabel(ns) && name + "." + ns == t + "." + suffix && '.' !in suffix
    ensures t == name && suffix == ns
  {
    var s := name + "." + ns;
    assert s[|name|] == '.' && s[|t|] == '.';
    assert forall i | |name| < i < |s| :: s[i] == ns[i - |name| - 1];
    assert forall i | |t| < i < |s| :: s[i] == suffix[i - |t| - 1];
    assert |t| == |name|;
    assert s[..|name|] == name && s[..|t|] == t;
    assert s[|name| + 1..] == ns && s[|t| + 1..] == suffix;
  }

  lemma ShortKeepsLong(short: string, name: string, ns: string)
    requires short == name + "." + ns && IsLabel(name) && IsLabel(ns)
    ensures TrimSuffix(short, ".cluster.local") == short
  {
    TrimsOrKeeps(short, ".cluster.local");
    var t := TrimSuffix(short, ".cluster.local");
    if t != short {
      assert ".cluster.local" == ".cluster" + "." + "local";
      assert short == (t + ".cluster") + "." + "local";
      assert (t + ".cluster")[|t|] == '.';
      ShortEndsIn(name, ns, "local", t + ".cluster");
    }
  }

  lemma ShortKeepsSvc(short: string, name: string, ns: string)
    requires short == name + "." + ns && IsLabel(name) && IsLabel(ns)
    ensures TrimSuffix(short, ".svc") == if ns == "svc" then name else short
  {
    if ns == "svc" {
      assert short == name + ".svc";
      TrimsItsSuffix(name, ".svc");
    } else {
      TrimsOrKeeps(short, ".svc");
      var t := TrimSuffix(short, ".svc");
      if t != short {
        assert short == t + "." + "svc";
        ShortEndsIn(name, ns, "svc", t);
      }
    }
  }

  /** A host names a Service exactly if it spells the Service's cluster-local name. */
  lemma HostNamesIffSpells(host: string, ref: ServiceRef)
    ensures HostNames(host) == Some(ref) <==> Spells(host, ref)
  {
    var long, svc := ".cluster.local", ".svc";
    var short := ref.name + "." + ref.namespace;
    var u := TrimSuffix(host, long);
    var t := TrimSuffix(u, svc);
    CutMeans(t, ref.name, ref.namespace);
    TrimsOrKeeps(host, long);
    TrimsOrKeeps(u, svc);
    if IsLabel(ref.name) && IsLabel(ref.namespace) {
      ShortKeepsLong(short, ref.name, ref.namespace);
      ShortKeepsSvc(short, ref.name, ref.namespace);
      TrimsItsSuffix(short, svc);
      TrimsItsSuffix(short, long);
      TrimsItsSuffix(short + svc, long);
      SvcKeepsLong(short);
    }
    hide TrimSuffix, Cut;
    if HostNames(host) == Some(ref) {
      assert Cut(t) == Some((ref.name, ref.namespace));
    }
  }

  lemma SvcKeepsLong(short: string)
    ensures TrimSuffix(short + ".svc", ".cluster.local") == short + ".svc"
  {
    var s, long := short + ".svc", ".cluster.local";
    assert s[|s| - 1] == 'c' && long[|long| - 1] == 'l';
    if |long| <= |s| {
      assert s[|s| - |long|..][|long| - 1] == s[|s| - 1];
    }
  }
}
