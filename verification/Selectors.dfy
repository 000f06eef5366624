/**
 Selectors for callers and targets of a request (internal/selector/selector.go).

 A list of selectors is compiled into one Set with a table per kind. The main result: matching a Set is
 matching some selector of the list.
 */
module Selectors {
  import opened Basics
  import opened RefCounts
  import opened IdentityTables
  import opened EngineIndex

  datatype Side = Source | Destination

  /** A CIDR block (section 3.1 of RFC 4632): addresses that agree with `network` above the host part. */
  datatype Prefix = Prefix(network: Addr, hosts: nat)

  predicate Contains(p: Prefix, a: Addr) {
    && p.hosts > 0 && ((p.network.V4? && a.V4?) || (p.network.V6? && a.V6?))
    && a.bits / p.hosts == p.network.bits / p.hosts
  }

  datatype Labels = Labels(namespace: string, required: map<string, string>)

  /** One parsed selector. */
  datatype Selector =
    | Anything
    | Ip(addr: Addr)
    | Cidr(prefix: Prefix)
    | Host(host: string)
    | HostSuffix(suffix: string)
    | External
    | OfService(service: ServiceRef)
    | InNamespace(namespace: string)
    | AsAccount(namespace: string, account: string)
    | AsSpiffe(id: (string, string, string))
    | WithLabels(labels: Labels)

  /** A selector as written; `Malformed` has an unknown prefix or a value that does not parse. */
  datatype Written = Malformed | Written(selector: Selector)

  predicate AllowedOn(s: Selector, side: Side) {
    match side
    case Source => !s.Host? && !s.HostSuffix?
    case Destination => !s.External? && !s.AsAccount? && !s.AsSpiffe? && !s.WithLabels?
  }

  /** Whether the selector needs the identity map. */
  predicate NeedsWorkloads(s: Selector) {
    s.External? || s.OfService? || s.InNamespace? || s.AsAccount? || s.AsSpiffe? || s.WithLabels?
  }

  predicate Accepted(w: Written, side: Side, allowWorkloads: bool) {
    w.Written? && AllowedOn(w.selector, side) && (NeedsWorkloads(w.selector) ==> allowWorkloads)
  }

  /*** What one selector means ***/

  const NO_SPIFFE := ("", "", "")

  predicate HasLabels(l: Labels, w: EngineWorkload) {
    && (l.namespace != "" ==> l.namespace == w.namespace)
    && forall k | k in l.required :: k in w.labels && w.labels[k] == l.required[k]
  }

  predicate SelectsAddress(s: Selector, addr: Addr) {
    !addr.Invalid? && ((s.Ip? && s.addr == addr) || (s.Cidr? && Contains(s.prefix, addr)))
  }

  predicate SelectsPod(s: Selector, w: EngineWorkload) {
    match s
    case OfService(ref) => ref in w.services
    case InNamespace(ns) => ns == w.namespace
    case AsAccount(ns, sa) => ns == w.namespace && sa == w.serviceAccount
    case AsSpiffe(id) => id == w.spiffeID && w.spiffeID != NO_SPIFFE
    case WithLabels(l) => HasLabels(l, w)
    case _ => false
  }

  /** The caller has this address and workload; `externalAllowed` rules out callers merely missing from the map. */
  predicate SelectsSource(s: Selector, addr: Addr, w: Option<EngineWorkload>, externalAllowed: bool) {
    || s.Anything? || SelectsAddress(s, addr)
    || (w.None? && s.External? && externalAllowed)
    || (w.Some? && w.value.kind.KindPod? && SelectsPod(s, w.value))
  }

  predicate EndsWith(host: string, suffix: string) {
    |host| > |suffix| && host[|host| - |suffix|..] == suffix
  }

  predicate SelectsDestination(s: Selector, addr: Addr, host: string, services: set<ServiceRef>) {
    || s.Anything? || SelectsAddress(s, addr)
    || (host != "" && ((s.Host? && s.host == host) || (s.HostSuffix? && EndsWith(host, s.suffix))))
    || (s.OfService? && s.service in services)
    || (s.InNamespace? && exists ref | ref in services :: ref.namespace == s.namespace)
  }

  /*** Compiled sets ***/

  /** One table per kind of selector. */
  datatype Set = Set(
    any: bool, addrs: set<Addr>, prefixes: seq<Prefix>, hosts: set<string>, suffixes: seq<string>,
    services: set<ServiceRef>, namespaces: set<string>, accounts: set<(string, string)>,
    spiffe: set<(string, string, string)>, labels: seq<Labels>, external: bool)

  const EMPTY_SET := Set(false, {}, [], {}, [], {}, {}, {}, {}, [], false)

  function Add(s: Set, sel: Selector): Set {
    match sel
    case Anything => s.(any := true)
    case Ip(a) => s.(addrs := s.addrs + {a})
    case Cidr(p) => s.(prefixes := s.prefixes + [p])
    case Host(h) => s.(hosts := s.hosts + {h})
    case HostSuffix(h) => s.(suffixes := s.suffixes + [h])
    case OfService(r) => s.(services := s.services + {r})
    case InNamespace(n) => s.(namespaces := s.namespaces + {n})
    case AsAccount(n, a) => s.(accounts := s.accounts + {(n, a)})
    case AsSpiffe(id) => s.(spiffe := s.spiffe + {id})
    case WithLabels(l) => s.(labels := s.labels + [l])
    case External => s.(external := true)
  }

  /** Every table holds exactly the selectors of that kind in the list. */
  ghost predicate Tables(s: Set, list: seq<Selector>) {
    && (s.any <==> Anything in list)
    && (forall a :: a in s.addrs <==> Ip(a) in list)
    && (forall p :: p in s.prefixes <==> Cidr(p) in list)
    && (forall h :: h in s.hosts <==> Host(h) in list)
    && (forall h :: h in s.suffixes <==> HostSuffix(h) in list)
    && (forall r :: r in s.services <==> OfService(r) in list)
    && (forall n :: n in s.namespaces <==> InNamespace(n) in list)
    && (forall n, a :: (n, a) in s.accounts <==> AsAccount(n, a) in list)
    && (forall i :: i in s.spiffe <==> AsSpiffe(i) in list)
    && (forall l :: l in s.labels <==> WithLabels(l) in list)
    && (s.external <==> External in list)
  }

  lemma AddTables(s: Set, list: seq<Selector>, sel: Selector)
    requires Tables(s, list)
    ensures Tables(Add(s, sel), list + [sel])
  {
    var longer := list + [sel];
    assert forall x :: x in longer <==> x in list || x == sel;
    hide *;
    AddTable(s, list, sel, longer);
  }

  lemma AddTable(s: Set, list: seq<Selector>, sel: Selector, longer: seq<Selector>)
    requires Tables(s, list) && forall x :: x in longer <==> x in list || x == sel
    ensures Tables(Add(s, sel), longer)
  {
  }

  datatype Compiled = Rejected | NoConstraint | Compiled(set': Set)

  function SelectorsOf(list: seq<Written>): seq<Selector>
    requires forall w | w in list :: w.Written?
  {
    seq(|list|, i requires 0 <= i < |list| => list[i].selector)
  }

  /** Compiles a list; one bad entry rejects it, an empty list is no constraint. */
  method Compile(list: seq<Written>, side: Side, allowWorkloads: bool) returns (r: Compiled)
    ensures r.Rejected? <==> exists w | w in list :: !Accepted(w, side, allowWorkloads)
    ensures r.NoConstraint? <==> list == []
    ensures r.Compiled? ==> Tables(r.set', SelectorsOf(list))
  {
    if |list| == 0 {
      return NoConstraint;
    }
    var s := EMPTY_SET;
    for i := 0 to |list|
      invariant forall w | w in list[..i] :: Accepted(w, side, allowWorkloads)
      invariant Tables(s, SelectorsOf(list[..i]))
    {
      hide Tables;
      assert list[i] in list;
      if list[i].Malformed? || !AllowedOn(list[i].selector, side) {
        return Rejected;
      }
      if NeedsWorkloads(list[i].selector) && !allowWorkloads {
        return Rejected;
      }
      AddTables(s, SelectorsOf(list[..i]), list[i].selector);
      assert SelectorsOf(list[..i + 1]) == SelectorsOf(list[..i]) + [list[i].selector];
      s := Add(s, list[i].selector);
    }
    assert list[..|list|] == list;
    return Compiled(s);
  }

  /*** Matching a set ***/

  predicate NetworkMatches(s: Set, addr: Addr, host: string) {
    || s.any
    || (!addr.Invalid? && (addr in s.addrs || exists p | p in s.prefixes :: Contains(p, addr)))
    || (host != "" && (host in s.hosts || exists h | h in s.suffixes :: EndsWith(host, h)))
  }

  predicate PodMatches(s: Set, w: EngineWorkload) {
    || w.namespace in s.namespaces || (w.namespace, w.serviceAccount) in s.accounts
    || (w.spiffeID in s.spiffe && w.spiffeID != NO_SPIFFE)
    || (exists ref | ref in w.services :: ref in s.services)
    || (exists l | l in s.labels :: HasLabels(l, w))
  }

  predicate SourceMatches(s: Option<Set>, addr: Addr, w: Option<EngineWorkload>, externalAllowed: bool) {
    || s.None? || NetworkMatches(s.value, addr, "")
    || (if w.None? then s.value.external && externalAllowed else w.value.kind.KindPod? && PodMatches(s.value, w.value))
  }

  predicate DestinationMatches(s: Option<Set>, addr: Addr, host: string, services: set<ServiceRef>) {
    || s.None? || NetworkMatches(s.value, addr, host)
    || exists ref | ref in services :: ref in s.value.services || ref.namespace in s.value.namespaces
  }

  method Match(s: Set, addr: Addr, host: string) returns (r: bool)
    ensures r <==> NetworkMatches(s, addr, host)
  {
    if s.any {
      return true;
    }
    if !addr.Invalid? {
      if addr in s.addrs {
        return true;
      }
      for i := 0 to |s.prefixes|
        invariant forall p | p in s.prefixes[..i] :: !Contains(p, addr)
      {
        if Contains(s.prefixes[i], addr) {
          return true;
        }
      }
    }
    if host != "" {
      if host in s.hosts {
        return true;
      }
      for i := 0 to |s.suffixes|
        invariant forall h | h in s.suffixes[..i] :: !EndsWith(host, h)
      {
        if EndsWith(host, s.suffixes[i]) {
          return true;
        }
      }
    }
    return false;
  }

  method MatchesLabels(l: Labels, w: EngineWorkload) returns (r: bool)
    ensures r <==> HasLabels(l, w)
  {
    if l.namespace != "" && l.namespace != w.namespace {
      return false;
    }
    var todo := l.required.Keys;
    while todo != {}
      invariant todo <= l.required.Keys
      invariant forall k | k in l.required && k !in todo :: k in w.labels && w.labels[k] == l.required[k]
    {
      var k :| k in todo;
      if k !in w.labels || w.labels[k] != l.required[k] {
        return false;
      }
      todo := todo - {k};
    }
    return true;
  }

  method MatchSource(s: Option<Set>, addr: Addr, w: Option<EngineWorkload>, externalAllowed: bool) returns (r: bool)
    ensures r <==> SourceMatches(s, addr, w, externalAllowed)
  {
    if s.None? || s.value.any {
      return true;
    }
    var set' := s.value;
    var network := Match(set', addr, "");
    if network {
      return true;
    }
    if w.None? {
      return set'.external && externalAllowed;
    }
    var pod := w.value;
    if !pod.kind.KindPod? {
      return false;
    }
    if pod.namespace in set'.namespaces || (pod.namespace, pod.serviceAccount) in set'.accounts {
      return true;
    }
    if pod.spiffeID in set'.spiffe && pod.spiffeID != NO_SPIFFE {
      return true;
    }
    var todo := pod.services;
    while todo != {}
      invariant todo <= pod.services
      invariant forall ref | ref in pod.services && ref !in todo :: ref !in set'.services
    {
      var ref :| ref in todo;
      if ref in set'.services {
        return true;
      }
      todo := todo - {ref};
    }
    for i := 0 to |set'.labels|
      invariant forall l | l in set'.labels[..i] :: !HasLabels(l, pod)
    {
      var ok := MatchesLabels(set'.labels[i], pod);
      if ok {
        return true;
      }
    }
    return false;
  }

  method MatchDestination(s: Option<Set>, addr: Addr, host: string, services: set<ServiceRef>) returns (r: bool)
    ensures r <==> DestinationMatches(s, addr, host, services)
  {
    if s.None? || s.value.any {
      return true;
    }
    var network := Match(s.value, addr, host);
    if network {
      return true;
    }
    var todo := services;
    while todo != {}
      invariant todo <= services
      invariant forall ref | ref in services && ref !in todo ::
                  ref !in s.value.services && ref.namespace !in s.value.namespaces
    {
      var ref :| ref in todo;
      if ref in s.value.services || ref.namespace in s.value.namespaces {
        return true;
      }
      todo := todo - {ref};
    }
    return false;
  }

  /*** Compiled equals one by one ***/

  ghost predicate SomeSource(list: seq<Selector>, addr: Addr, w: Option<EngineWorkload>, externalAllowed: bool) {
    exists s | s in list :: SelectsSource(s, addr, w, externalAllowed)
  }

  ghost predicate SomeDestination(list: seq<Selector>, addr: Addr, host: string, services: set<ServiceRef>) {
    exists s | s in list :: SelectsDestination(s, addr, host, services)
  }

  lemma NetworkIsSome(s: Set, list: seq<Selector>, addr: Addr, host: string)
    requires Tables(s, list)
    ensures NetworkMatches(s, addr, host)
       <==> exists sel | sel in list :: sel.Anything? || SelectsAddress(sel, addr)
                                        || (host != "" && ((sel.Host? && sel.host == host)
                                            || (sel.HostSuffix? && EndsWith(host, sel.suffix))))
  {
    hide Contains, EndsWith;
    if NetworkMatches(s, addr, host) {
      if s.any {
        assert Anything in list;
      } else if !addr.Invalid? && addr in s.addrs {
        assert Ip(addr) in list;
      } else if host != "" && host in s.hosts {
        assert Host(host) in list;
      } else if !addr.Invalid? && exists p | p in s.prefixes :: Contains(p, addr) {
        var p :| p in s.prefixes && Contains(p, addr);
        assert Cidr(p) in list;
      } else {
        var h :| h in s.suffixes && EndsWith(host, h);
        assert HostSuffix(h) in list;
      }
    }
  }

  lemma PodIsSome(s: Set, list: seq<Selector>, w: EngineWorkload)
    requires Tables(s, list)
    ensures PodMatches(s, w) <==> exists sel | sel in list :: SelectsPod(sel, w)
  {
    hide HasLabels;
    if PodMatches(s, w) {
      if w.namespace in s.namespaces {
        assert InNamespace(w.namespace) in list;
      } else if (w.namespace, w.serviceAccount) in s.accounts {
        assert AsAccount(w.namespace, w.serviceAccount) in list;
      } else if w.spiffeID in s.spiffe && w.spiffeID != NO_SPIFFE {
        assert AsSpiffe(w.spiffeID) in list;
      } else if exists ref | ref in w.services :: ref in s.services {
        var ref :| ref in w.services && ref in s.services;
        assert OfService(ref) in list;
      } else {
        var l :| l in s.labels && HasLabels(l, w);
        assert WithLabels(l) in list;
      }
    }
  }

  /** A compiled source set matches a caller exactly when one of its selectors does. */
  lemma SourceSetIsItsList(s: Set, list: seq<Selector>, addr: Addr, w: Option<EngineWorkload>, externalAllowed: bool)
    requires Tables(s, list)
    ensures SourceMatches(Some(s), addr, w, externalAllowed) <==> SomeSource(list, addr, w, externalAllowed)
  {
    NetworkIsSome(s, list, addr, "");
    if w.Some? {
      PodIsSome(s, list, w.value);
    }
    assert s.external <==> External in list;
    hide Tables, NetworkMatches, PodMatches, SelectsAddress, SelectsPod;
  }

  /** A compiled destination set matches a target exactly when one of its selectors does. */
  lemma DestinationSetIsItsList(s: Set, list: seq<Selector>, addr: Addr, host: string, services: set<ServiceRef>)
    requires Tables(s, list)
    ensures DestinationMatches(Some(s), addr, host, services) <==> SomeDestination(list, addr, host, services)
  {
    NetworkIsSome(s, list, addr, host);
    hide NetworkMatches, SelectsAddress, EndsWith;
    if ref :| ref in services && (ref in s.services || ref.namespace in s.namespaces) {
      if ref in s.services {
        assert OfService(ref) in list && SelectsDestination(OfService(ref), addr, host, services);
      } else {
        assert InNamespace(ref.namespace) in list
            && SelectsDestination(InNamespace(ref.namespace), addr, host, services);
      }
    }
  }
}
