/**
 The engine's local copy of the identity map (internal/identity/index.go).

 Services are objects compared by identity, as in the source: an address is released only by the very
 object it points to. A batch removes, then updates in arbitrary map order; if no two Services share an
 address before or after it, the reverse map comes out complete in every order.
 */
module EngineIndex {
  import opened Basics
  import opened RefCounts
  import opened IdentityTables

  /** The engine's view of a workload: what the operator sends, without the Cilium labels. */
  datatype EngineWorkload = EngineWorkload(
    kind: Kind, ip: Addr, node: string, podUID: Uid, namespace: string, pod: string, serviceAccount: string,
    spiffeID: (string, string, string), labels: map<string, string>, services: set<ServiceRef>,
    securityIdentity: nat)

  /** A received workload; `Invalid` stands for an address that does not parse. */
  function FromProto(w: Workload): EngineWorkload {
    EngineWorkload(w.kind, Unmap(w.ip), w.node, w.podUID, w.namespace, w.pod, w.serviceAccount, w.spiffeID, w.labels,
                   w.services, w.securityIdentity)
  }

  /** A Service as received; immutable, so only its identity and contents matter. */
  class StoredService {
    const key: ServiceRef
    const clusterIPs: seq<Addr>
    const ports: seq<nat>

    constructor (key: ServiceRef, clusterIPs: seq<Addr>, ports: seq<nat>)
      ensures this.key == key && this.clusterIPs == clusterIPs && this.ports == ports
    {
      this.key, this.clusterIPs, this.ports := key, clusterIPs, ports;
    }
  }

  type Objects = map<ServiceRef, StoredService>

  type Reverse = map<Addr, StoredService>

  /** Each stored object sits under one name. */
  ghost predicate OneName(services: Objects) {
    forall a, b | a in services && b in services && services[a] == services[b] :: a == b
  }

  /** An entry always names a stored Service that lists that IP. */
  ghost predicate Sound(services: Objects, byIP: Reverse) {
    forall ip | ip in byIP :: ip in byIP[ip].clusterIPs && exists n | n in services :: services[n] == byIP[ip]
  }

  /** Every address of the Services in `names` leads back to them. */
  ghost predicate CompleteFor(services: Objects, byIP: Reverse, names: set<ServiceRef>) {
    forall n, ip | n in services && n in names && ip in services[n].clusterIPs :: ip in byIP && byIP[ip] == services[n]
  }

  ghost predicate Complete(services: Objects, byIP: Reverse) {
    CompleteFor(services, byIP, services.Keys)
  }

  function ValueOf(s: StoredService): Service {
    Service(s.key.namespace, s.key.name, s.clusterIPs, s.ports)
  }

  /** What is stored under each name, forgetting object identity. */
  function Contents(services: Objects): map<ServiceRef, Service> {
    map n | n in services :: ValueOf(services[n])
  }

  ghost predicate Disjoint(contents: map<ServiceRef, Service>) {
    forall a, b, ip |
      a in contents && b in contents && ip in contents[a].clusterIPs && ip in contents[b].clusterIPs :: a == b
  }

  /*** Steps of a batch ***/

  /** `byIP` without the entries of `old'`. */
  function Released(byIP: Reverse, old': StoredService): Reverse {
    map ip | ip in byIP && byIP[ip] != old' :: byIP[ip]
  }

  function Assigned(byIP: Reverse, s: StoredService): Reverse {
    byIP + map ip | ip in s.clusterIPs :: s
  }

  lemma DropKeeps(services: Objects, byIP: Reverse, name: ServiceRef, names: set<ServiceRef>)
    requires OneName(services) && Sound(services, byIP) && CompleteFor(services, byIP, names) && name in services
    ensures var services', byIP' := services - {name}, Released(byIP, services[name]);
            OneName(services') && Sound(services', byIP') && CompleteFor(services', byIP', names - {name})
  {
    var byIP' := Released(byIP, services[name]);
    forall ip | ip in byIP' ensures exists n | n in services - {name} :: services[n] == byIP'[ip] {
      var n :| n in services && services[n] == byIP[ip];
      assert n in services - {name};
    }
  }

  lemma StoreIsSound(services: Objects, byIP: Reverse, name: ServiceRef, s: StoredService)
    requires OneName(services) && Sound(services, byIP) && name !in services
    requires forall n | n in services :: services[n] != s
    ensures OneName(services[name := s]) && Sound(services[name := s], Assigned(byIP, s))
  {
    var services', byIP' := services[name := s], Assigned(byIP, s);
    forall ip | ip in byIP'
      ensures ip in byIP'[ip].clusterIPs && exists n | n in services' :: services'[n] == byIP'[ip]
    {
      if ip in s.clusterIPs {
        assert name in services' && services'[name] == byIP'[ip];
      } else {
        assert ip in byIP && byIP'[ip] == byIP[ip];
        var n :| n in services && services[n] == byIP[ip];
        assert n in services' && services'[n] == byIP'[ip];
      }
    }
  }

  /** Storing a Service keeps what was complete, provided it takes no address of those Services. */
  lemma StoreKeepsComplete(services: Objects, byIP: Reverse, name: ServiceRef, s: StoredService, names: set<ServiceRef>)
    requires CompleteFor(services, byIP, names) && name !in services
    requires forall n, ip | n in services && n in names && ip in services[n].clusterIPs :: ip !in s.clusterIPs
    ensures CompleteFor(services[name := s], Assigned(byIP, s), names + {name})
  {
  }

  /*** Batches ***/

  /** The addresses that parse, unmapped. */
  function Parsed(ips: seq<Addr>): (out: seq<Addr>)
    ensures forall a :: a in out <==> exists b | b in ips :: !b.Invalid? && Unmap(b) == a
  {
    if ips == [] then []
    else
      var out, a := Parsed(ips[..|ips| - 1]), ips[|ips| - 1];
      assert ips == ips[..|ips| - 1] + [a];
      if a.Invalid? then out else out + [Unmap(a)]
  }

  /** A received Service with the addresses that parse. */
  function AsStored(res: Service): Service {
    res.(clusterIPs := Parsed(res.clusterIPs))
  }

  /** The stored Service has the name and ports received, and the addresses that parse, mapped ones as IPv4. */
  lemma StoredAsReceived(res: Service, ip: Addr)
    ensures var s := AsStored(res);
            && s.namespace == res.namespace && s.name == res.name && s.ports == res.ports
            && (ip in s.clusterIPs <==>
                ((ip.V4? || ip.V6?) && ip in res.clusterIPs) || (ip.V4? && Mapped(ip.bits) in res.clusterIPs))
  {
    if ip.V4? && Mapped(ip.bits) in res.clusterIPs {
      assert Unmap(Mapped(ip.bits)) == ip;
    }
    if (ip.V4? || ip.V6?) && ip in res.clusterIPs {
      assert Unmap(ip) == ip;
    }
  }

  /** What is stored after a batch: removals first, then updates. */
  function Patched(contents: map<ServiceRef, Service>, updated: map<ServiceRef, Service>,
                   removed: set<ServiceRef>): map<ServiceRef, Service> {
    (contents - removed) + map n | n in updated :: AsStored(updated[n])
  }

  /** Updates still to do are `todo`; every other name already has its final content. */
  ghost predicate Settled(services: Objects, final: map<ServiceRef, Service>, todo: set<ServiceRef>) {
    && (forall n | n in services && n !in todo :: n in final && final[n] == ValueOf(services[n]))
    && (forall n | n in final && n !in todo :: n in services)
  }

  /** A reverse map can be complete only if no two Services share an address. */
  lemma CompleteIsDisjoint(services: Objects, byIP: Reverse)
    requires OneName(services) && Complete(services, byIP)
    ensures Disjoint(Contents(services))
  {
    var contents := Contents(services);
    forall a, b, ip | a in contents && b in contents && ip in contents[a].clusterIPs && ip in contents[b].clusterIPs
      ensures a == b
    {
      assert byIP[ip] == services[a] && byIP[ip] == services[b];
    }
  }

  lemma SettledIsFinal(services: Objects, final: map<ServiceRef, Service>)
    requires Settled(services, final, {})
    ensures Contents(services) == final
  {
  }

  lemma Starts(before: Objects, updated: map<ServiceRef, Service>, removed: set<ServiceRef>, byIP: Reverse)
    ensures Settled(before - removed, Patched(Contents(before), updated, removed), updated.Keys)
    ensures CompleteFor(before - removed, byIP, before.Keys)
            ==> CompleteFor(before - removed, byIP, (before - removed).Keys - updated.Keys)
  {
  }

  lemma FinalUpdate(contents: map<ServiceRef, Service>, updated: map<ServiceRef, Service>, removed: set<ServiceRef>,
                    name: ServiceRef)
    requires name in updated
    ensures var final := Patched(contents, updated, removed);
            name in final && final[name] == AsStored(updated[name])
  {
  }

  lemma Dropped(services: Objects, name: ServiceRef, final: map<ServiceRef, Service>, todo: set<ServiceRef>)
    requires Settled(services, final, todo) && name in todo
    ensures Settled(services - {name}, final, todo) && (services - {name}).Keys - todo == services.Keys - todo
  {
  }

  /** One update of a batch: drop the old Service of that name, store the new one. */
  lemma UpdateStep(services: Objects, byIP: Reverse, name: ServiceRef, s: StoredService,
                   final: map<ServiceRef, Service>, todo: set<ServiceRef>)
    requires OneName(services) && Sound(services, byIP) && name !in services && name in todo
    requires forall n | n in services :: services[n] != s
    requires Settled(services, final, todo) && name in final && final[name] == ValueOf(s)
    ensures var services', byIP' := services[name := s], Assigned(byIP, s);
            && OneName(services') && Sound(services', byIP') && Settled(services', final, todo - {name})
            && (CompleteFor(services, byIP, services.Keys - todo) && Disjoint(final)
                ==> CompleteFor(services', byIP', services'.Keys - (todo - {name})))
  {
    StoreIsSound(services, byIP, name, s);
    if CompleteFor(services, byIP, services.Keys - todo) && Disjoint(final) {
      StoreKeepsComplete(services, byIP, name, s, services.Keys - todo);
      assert services[name := s].Keys - (todo - {name}) == services.Keys - todo + {name};
    }
  }

  /**
   What a batch does: removals, then updates; a complete reverse map is complete again exactly if no two Services
   then share an address.
   */
  ghost predicate ServicesPatched(
    services: Objects, byIP: Reverse, updated: map<ServiceRef, Service>, removed: set<ServiceRef>,
    services': Objects, byIP': Reverse)
  {
    && OneName(services') && Sound(services', byIP')
    && Contents(services') == Patched(Contents(services), updated, removed)
    && (Complete(services, byIP) ==> (Complete(services', byIP') <==> Disjoint(Contents(services'))))
  }

  /** Two engines that hold the same Services completely answer alike, whatever order their batches took. */
  lemma OrderIsIrrelevant(s1: Objects, m1: Reverse, s2: Objects, m2: Reverse, ip: Addr)
    requires OneName(s1) && Sound(s1, m1) && Complete(s1, m1)
    requires OneName(s2) && Sound(s2, m2) && Complete(s2, m2)
    requires Contents(s1) == Contents(s2)
    ensures ip in m1 <==> ip in m2
    ensures ip in m1 ==> exists n | n in s1 && n in s2 :: m1[ip] == s1[n] && m2[ip] == s2[n]
  {
    if ip in m1 {
      AnswerCarriesOver(s1, m1, s2, m2, ip);
    }
    if ip in m2 {
      AnswerCarriesOver(s2, m2, s1, m1, ip);
    }
  }

  lemma AnswerCarriesOver(s1: Objects, m1: Reverse, s2: Objects, m2: Reverse, ip: Addr)
    requires Sound(s1, m1) && Complete(s2, m2) && Contents(s1) == Contents(s2) && ip in m1
    ensures ip in m2 && exists n | n in s1 && n in s2 :: m1[ip] == s1[n] && m2[ip] == s2[n]
  {
    var n :| n in s1 && s1[n] == m1[ip];
    assert n in Contents(s1) && Contents(s2)[n] == ValueOf(s1[n]);
  }

  predicate Names(w: Workload, ip: Addr) {
    !w.ip.Invalid? && Unmap(w.ip) == ip
  }

  /** An address holds one of the updates in `names` that carry it, else what it held unless removed. */
  ghost predicate WorkloadsPatched(
    before: map<Addr, EngineWorkload>, updated: map<Addr, Workload>, names: set<Addr>, removed: seq<Addr>,
    after: map<Addr, EngineWorkload>)
    requires names <= updated.Keys
  {
    forall ip {:trigger Find(after, ip)} ::
      if exists n | n in names :: Names(updated[n], ip)
      then exists n | n in names :: Names(updated[n], ip) && Find(after, ip) == Some(FromProto(updated[n]))
      else Find(after, ip) == if ip in Parsed(removed) then None else Find(before, ip)
  }

  lemma RemoveOne(
    before: map<Addr, EngineWorkload>, updated: map<Addr, Workload>, removed: seq<Addr>,
    middle: map<Addr, EngineWorkload>, n: Addr, after: map<Addr, EngineWorkload>)
    requires WorkloadsPatched(before, updated, {}, removed, middle)
    requires after == if n.Invalid? then middle else middle - {Unmap(n)}
    ensures WorkloadsPatched(before, updated, {}, removed + [n], after)
  {
    assert (removed + [n])[..|removed|] == removed;
    forall ip ensures Find(after, ip) == if ip in Parsed(removed + [n]) then None else Find(before, ip) {
      assert Find(middle, ip) == if ip in Parsed(removed) then None else Find(before, ip);
    }
  }

  lemma PatchOne(
    before: map<Addr, EngineWorkload>, updated: map<Addr, Workload>, names: set<Addr>, removed: seq<Addr>,
    middle: map<Addr, EngineWorkload>, n: Addr, after: map<Addr, EngineWorkload>)
    requires names <= updated.Keys && n in updated && WorkloadsPatched(before, updated, names, removed, middle)
    requires var w := FromProto(updated[n]); after == if w.ip.Invalid? then middle else middle[w.ip := w]
    ensures WorkloadsPatched(before, updated, names + {n}, removed, after)
  {
    forall ip
      ensures if exists m | m in names + {n} :: Names(updated[m], ip)
              then exists m | m in names + {n} ::
                     Names(updated[m], ip) && Find(after, ip) == Some(FromProto(updated[m]))
              else Find(after, ip) == if ip in Parsed(removed) then None else Find(before, ip)
    {
      if Names(updated[n], ip) {
        assert n in names + {n} && Find(after, ip) == Some(FromProto(updated[n]));
      } else {
        assert Find(after, ip) == Find(middle, ip);
        if m :| m in names && Names(updated[m], ip) {
          var k :| k in names && Names(updated[k], ip) && Find(middle, ip) == Some(FromProto(updated[k]));
          assert k in names + {n};
        }
      }
    }
  }

  /** Under canonical names, as the operator sends them, a batch is a patch of the map. */
  lemma CanonicalPatch(
    before: map<Addr, EngineWorkload>, updated: map<Addr, Workload>, removed: seq<Addr>,
    after: map<Addr, EngineWorkload>)
    requires forall n | n in updated :: Names(updated[n], n)
    requires forall n | n in removed :: !n.Invalid? && Unmap(n) == n
    requires WorkloadsPatched(before, updated, updated.Keys, removed, after)
    ensures after == (before - Elems(removed)) + map n | n in updated :: FromProto(updated[n])
  {
    var expected := (before - Elems(removed)) + map n | n in updated :: FromProto(updated[n]);
    forall ip ensures Find(after, ip) == Find(expected, ip) {
      assert ip in Parsed(removed) <==> ip in removed;
      if ip in updated {
        assert Names(updated[ip], ip);
      }
    }
    SameMap(after, expected);
  }

  /*** Lookups ***/

  function LookupIn(workloads: map<Addr, EngineWorkload>, ip: Addr): Option<EngineWorkload> {
    if ip.Invalid? then None else Find(workloads, Unmap(ip))
  }

  function ServiceIn(byIP: Reverse, ip: Addr): Option<Service> {
    if !ip.Invalid? && Unmap(ip) in byIP then Some(ValueOf(byIP[Unmap(ip)])) else None
  }

  /** The engine's index. */
  class Index {
    var workloads: map<Addr, EngineWorkload>
    var services: Objects
    var byClusterIP: Reverse
    var workloadsSynced: bool
    var servicesSynced: bool

    ghost predicate Valid()
      reads this
    {
      OneName(services) && Sound(services, byClusterIP)
    }

    constructor ()
      ensures Valid() && Complete(services, byClusterIP)
      ensures workloads == map[] && services == map[] && !workloadsSynced && !servicesSynced
    {
      workloads, services, byClusterIP := map[], map[], map[];
      workloadsSynced, servicesSynced := false, false;
    }

    method Lookup(ip: Addr) returns (r: Option<EngineWorkload>)
      ensures r == LookupIn(workloads, ip)
    {
      if ip.Invalid? {
        return None;
      }
      return Find(workloads, Unmap(ip));
    }

    /** A found Service lists the address. */
    method ServiceByClusterIP(ip: Addr) returns (r: Option<Service>)
      requires Valid()
      ensures r == ServiceIn(byClusterIP, ip) && (r.Some? ==> Unmap(ip) in r.value.clusterIPs)
    {
      if ip.Invalid? || Unmap(ip) !in byClusterIP {
        return None;
      }
      return Some(ValueOf(byClusterIP[Unmap(ip)]));
    }

    /** Stores updated workloads and drops removed ones. */
    method ApplyWorkloads(updated: map<Addr, Workload>, removed: seq<Addr>)
      modifies `workloads, `workloadsSynced
      ensures workloadsSynced
      ensures WorkloadsPatched(old(workloads), updated, updated.Keys, removed, workloads)
    {
      for i := 0 to |removed|
        invariant WorkloadsPatched(old(workloads), updated, {}, removed[..i], workloads)
      {
        ghost var before := workloads;
        if !removed[i].Invalid? {
          workloads := workloads - {Unmap(removed[i])};
        }
        RemoveOne(old(workloads), updated, removed[..i], before, removed[i], workloads);
        assert removed[..i + 1] == removed[..i] + [removed[i]];
      }
      assert removed[..|removed|] == removed;
      var todo := updated.Keys;
      while todo != {}
        invariant todo <= updated.Keys
        invariant WorkloadsPatched(old(workloads), updated, updated.Keys - todo, removed, workloads)
      {
        var n :| n in todo;
        ghost var before, done := workloads, updated.Keys - todo;
        var w := FromProto(updated[n]);
        if !w.ip.Invalid? {
          workloads := workloads[w.ip := w];
        }
        todo := todo - {n};
        PatchOne(old(workloads), updated, done, removed, before, n, workloads);
        assert updated.Keys - todo == done + {n};
      }
      workloadsSynced := true;
    }

    /** Releases only the addresses that still point to the very object being dropped. */
    method DropService(name: ServiceRef, ghost names: set<ServiceRef>)
      requires Valid()
      modifies `services, `byClusterIP
      ensures Valid() && services == old(services) - {name}
      ensures old(CompleteFor(services, byClusterIP, names)) ==> CompleteFor(services, byClusterIP, names)
    {
      if name !in services {
        return;
      }
      var old' := services[name];
      for i := 0 to |old'.clusterIPs|
        invariant services == old(services)
        invariant byClusterIP.Keys <= old(byClusterIP).Keys
        invariant forall ip | ip in old(byClusterIP) ::
            if old(byClusterIP)[ip] == old' && ip in old'.clusterIPs[..i] then ip !in byClusterIP
            else ip in byClusterIP && byClusterIP[ip] == old(byClusterIP)[ip]
      {
        var ip := old'.clusterIPs[i];
        if ip in byClusterIP && byClusterIP[ip] == old' {
          byClusterIP := byClusterIP - {ip};
        }
      }
      assert byClusterIP == Released(old(byClusterIP), old');
      services := services - {name};
      DropKeeps(old(services), old(byClusterIP), name, {});
      if CompleteFor(old(services), old(byClusterIP), names) {
        DropKeeps(old(services), old(byClusterIP), name, names);
      }
    }

    method AssignAll(s: StoredService)
      modifies `byClusterIP
      ensures byClusterIP == Assigned(old(byClusterIP), s)
    {
      for i := 0 to |s.clusterIPs|
        invariant byClusterIP == old(byClusterIP) + map ip | ip in s.clusterIPs[..i] :: s
      {
        byClusterIP := byClusterIP[s.clusterIPs[i] := s];
      }
      assert s.clusterIPs[..|s.clusterIPs|] == s.clusterIPs;
    }

    /** One batch; if the reverse map was complete, it is so again exactly when no two Services share an address. */
    method ApplyServices(updated: map<ServiceRef, Service>, removed: seq<ServiceRef>)
      requires Valid()
      modifies `services, `byClusterIP, `servicesSynced
      ensures Valid() && servicesSynced
      ensures ServicesPatched(old(services), old(byClusterIP), updated, Elems(removed), services, byClusterIP)
    {
      hide CompleteFor, Sound, OneName, Settled, Disjoint, Patched, Contents;
      ghost var wasComplete := Complete(services, byClusterIP);
      for i := 0 to |removed|
        invariant Valid() && services == old(services) - Elems(removed[..i])
        invariant wasComplete ==> CompleteFor(services, byClusterIP, old(services).Keys)
      {
        DropService(removed[i], old(services).Keys);
        assert services == old(services) - (Elems(removed[..i]) + {removed[i]});
        assert Elems(removed[..i + 1]) == Elems(removed[..i]) + {removed[i]};
      }
      assert removed[..|removed|] == removed;
      ghost var final := Patched(old(Contents(services)), updated, Elems(removed));
      Starts(old(services), updated, Elems(removed), byClusterIP);
      var todo := updated.Keys;
      while todo != {}
        invariant todo <= updated.Keys && Valid() && Settled(services, final, todo)
        invariant wasComplete && Disjoint(final) ==> CompleteFor(services, byClusterIP, services.Keys - todo)
      {
        var name :| name in todo;
        FinalUpdate(old(Contents(services)), updated, Elems(removed), name);
        StoreOne(name, updated[name], final, todo);
        todo := todo - {name};
      }
      SettledIsFinal(services, final);
      servicesSynced := true;
      if wasComplete && Complete(services, byClusterIP) {
        CompleteIsDisjoint(services, byClusterIP);
      }
      if wasComplete && Disjoint(final) {
        assert services.Keys - todo == services.Keys;
      }
    }

    /** Replaces the Service `name` by the received one. */
    method StoreOne(name: ServiceRef, res: Service, ghost final: map<ServiceRef, Service>,
                    ghost todo: set<ServiceRef>)
      requires Valid() && Settled(services, final, todo)
      requires name in todo && name in final && final[name] == AsStored(res)
      modifies `services, `byClusterIP
      ensures Valid() && Settled(services, final, todo - {name})
      ensures old(CompleteFor(services, byClusterIP, services.Keys - todo)) && Disjoint(final)
              ==> CompleteFor(services, byClusterIP, services.Keys - (todo - {name}))
    {
      hide CompleteFor, Sound, OneName, Settled, Disjoint, Assigned;
      DropService(name, services.Keys - todo);
      Dropped(old(services), name, final, todo);
      var ips := ParseAll(res.clusterIPs);
      var s := new StoredService(ServiceRef(res.namespace, res.name), ips, res.ports);
      UpdateStep(services, byClusterIP, name, s, final, todo);
      services := services[name := s];
      AssignAll(s);
    }
  }

  method ParseAll(ips: seq<Addr>) returns (out: seq<Addr>)
    ensures out == Parsed(ips)
  {
    out := [];
    for i := 0 to |ips|
      invariant out == Parsed(ips[..i])
    {
      assert ips[..i + 1][..i] == ips[..i];
      if !ips[i].Invalid? {
        out := out + [Unmap(ips[i])];
      }
    }
    assert ips[..|ips|] == ips;
  }
}
