/**
 The records behind the workload identity map, and what the map means
 (hyper-operator/internal/identity/index.go).

 `Answer` says, without any index, which workload an IP belongs to. The tables change by events that
 may arrive in any order; `Confluence` shows that only the last event of each object matters.
 */
module IdentityTables {
  import opened Basics
  import opened RefCounts

  /** An IP address; `Mapped` is the IPv4-mapped IPv6 form (section 2.5.5.2 of RFC 4291). */
  datatype Addr = Invalid | V4(bits: nat) | V6(bits: nat) | Mapped(bits: nat)

  function Unmap(a: Addr): (b: Addr)
    ensures !b.Mapped?
  {
    if a.Mapped? then V4(a.bits) else a
  }

  /** Pod UIDs, in the order they compare; zero is the empty UID. */
  type Uid = nat

  const EMPTY_UID: Uid := 0

  datatype PodRecord = PodRecord(
    uid: Uid, namespace: string, name: string, serviceAccount: string, node: string,
    labels: map<string, string>, ips: seq<Addr>, hostNetwork: bool, finished: bool, created: int)

  datatype SliceRecord = SliceRecord(namespace: string, name: string, service: string, podUIDs: seq<Uid>,
                                     ips: seq<Addr>)

  datatype Service = Service(namespace: string, name: string, clusterIPs: seq<Addr>, ports: seq<nat>)

  datatype PodName = PodName(namespace: string, name: string)

  datatype CiliumEndpoint = CiliumEndpoint(namespace: string, name: string, identity: nat, labels: set<string>)

  datatype NodeRecord = NodeRecord(name: string, ips: seq<Addr>)

  datatype Kind = KindPod | KindNode

  /** The identity behind one IP; sorted duplicate-free lists of the source are sets here. */
  datatype Workload = Workload(
    kind: Kind, ip: Addr, node: string, podUID: Uid, namespace: string, pod: string, serviceAccount: string,
    spiffeID: (string, string, string), labels: map<string, string>, services: set<ServiceRef>,
    securityIdentity: nat, ciliumLabels: set<string>)

  datatype Options = Options(trustDomain: string, labelKeys: set<string>)

  /** The base tables: the last accepted record of every object. */
  datatype Tables = Tables(
    pods: map<Uid, PodRecord>, slices: map<SliceKey, SliceRecord>, cilium: map<PodName, CiliumEndpoint>)

  /*** Normalised records ***/

  /** Valid addresses, unmapped, each at its first occurrence. */
  function UniqueAddrs(input: seq<Addr>): seq<Addr> {
    if input == [] then []
    else
      var out, a := UniqueAddrs(input[..|input| - 1]), input[|input| - 1];
      if a.Invalid? || Unmap(a) in out then out else out + [Unmap(a)]
  }

  /** Non-empty UIDs, each at its first occurrence. */
  function UniqueUids(input: seq<Uid>): seq<Uid> {
    if input == [] then []
    else
      var out, u := UniqueUids(input[..|input| - 1]), input[|input| - 1];
      if u == EMPTY_UID || u in out then out else out + [u]
  }

  ghost predicate NoDuplicates<T>(s: seq<T>) {
    forall i, j | 0 <= i < j < |s| :: s[i] != s[j]
  }

  lemma {:induction false} UniqueAddrsAreUnique(input: seq<Addr>)
    ensures NoDuplicates(UniqueAddrs(input))
    ensures forall a :: a in UniqueAddrs(input) <==> exists b | b in input :: !b.Invalid? && Unmap(b) == a
  {
    if input != [] {
      var init, last := input[..|input| - 1], input[|input| - 1];
      UniqueAddrsAreUnique(init);
      assert input == init + [last];
      forall a ensures a in UniqueAddrs(input) <==> exists b | b in input :: !b.Invalid? && Unmap(b) == a {
        if b :| b in init && !b.Invalid? && Unmap(b) == a {
          assert b in input;
        }
        if !last.Invalid? && Unmap(last) == a {
          assert last in input;
        }
      }
    }
  }

  /** Valid addresses in unmapped form. */
  ghost predicate Plain(ips: seq<Addr>) {
    forall a | a in ips :: !a.Invalid? && !a.Mapped?
  }

  lemma UniqueAddrsArePlain(input: seq<Addr>)
    ensures Plain(UniqueAddrs(input))
  {
    UniqueAddrsAreUnique(input);
  }

  lemma {:induction false} UniqueUidsAreUnique(input: seq<Uid>)
    ensures NoDuplicates(UniqueUids(input))
    ensures forall u :: u in UniqueUids(input) <==> u in input && u != EMPTY_UID
  {
    if input != [] {
      UniqueUidsAreUnique(input[..|input| - 1]);
      assert input == input[..|input| - 1] + [input[|input| - 1]];
    }
  }

  /** Pods on the host network, finished pods and pods without a UID are not indexed. */
  predicate Indexed(p: PodRecord) {
    !p.hostNetwork && !p.finished && p.uid != EMPTY_UID
  }

  function StoredPod(o: Options, p: PodRecord): PodRecord {
    p.(ips := UniqueAddrs(p.ips), labels := map k | k in p.labels && k in o.labelKeys :: p.labels[k])
  }

  function StoredSlice(s: SliceRecord): SliceRecord {
    s.(podUIDs := UniqueUids(s.podUIDs), ips := UniqueAddrs(s.ips))
  }

  function KeyOf(s: SliceRecord): SliceKey {
    SliceKey(s.namespace, s.name)
  }

  function ServiceOf(s: SliceRecord): ServiceRef {
    ServiceRef(s.namespace, s.service)
  }

  /*** What an IP means ***/

  ghost predicate Lists(pods: map<Uid, PodRecord>, ip: Addr, uid: Uid) {
    uid in pods && ip in pods[uid].ips
  }

  /** `a` was created after `b`, or at the same time with the greater UID. */
  predicate Newer(a: PodRecord, b: PodRecord) {
    a.created > b.created || (a.created == b.created && a.uid > b.uid)
  }

  /** The pod that lists the IP and that no other such pod is newer than. */
  ghost predicate Owns(pods: map<Uid, PodRecord>, ip: Addr, uid: Uid) {
    Lists(pods, ip, uid) && forall u | Lists(pods, ip, u) && u != uid :: Newer(pods[uid], pods[u])
  }

  ghost predicate UidsMatch(pods: map<Uid, PodRecord>) {
    forall uid | uid in pods :: pods[uid].uid == uid
  }

  ghost function OwnerOf(pods: map<Uid, PodRecord>, ip: Addr): Option<Uid> {
    if exists u :: Owns(pods, ip, u) then var u :| Owns(pods, ip, u); Some(u) else None
  }

  /** No IP has two owners. */
  lemma OwnerIsUnique(pods: map<Uid, PodRecord>, ip: Addr, uid: Uid)
    requires Owns(pods, ip, uid)
    ensures OwnerOf(pods, ip) == Some(uid)
  {
    var u := OwnerOf(pods, ip).value;
    assert Owns(pods, ip, u);
    assert Lists(pods, ip, u) && Lists(pods, ip, uid);
  }

  /** Among the given pods, one is newer than all others. */
  lemma {:induction false} NewestOf(pods: map<Uid, PodRecord>, some: set<Uid>) returns (uid: Uid)
    requires UidsMatch(pods) && some != {} && some <= pods.Keys
    ensures uid in some && forall u | u in some && u != uid :: Newer(pods[uid], pods[u])
    decreases |some|
  {
    uid :| uid in some;
    if some != {uid} {
      var rest := some - {uid};
      assert rest != {} by {
        assert some == rest + {uid};
      }
      var best := NewestOf(pods, rest);
      if Newer(pods[best], pods[uid]) {
        uid := best;
      }
    }
  }

  /** An IP that some pod lists has exactly one owner. */
  lemma ListedHasOneOwner(pods: map<Uid, PodRecord>, ip: Addr, uid: Uid)
    requires UidsMatch(pods) && Lists(pods, ip, uid)
    ensures exists owner | Owns(pods, ip, owner) :: forall u | Owns(pods, ip, u) :: u == owner
    ensures OwnerOf(pods, ip).Some?
  {
    var listing := set u | u in pods && Lists(pods, ip, u);
    assert uid in listing;
    var owner := NewestOf(pods, listing);
    assert Owns(pods, ip, owner);
    forall u | Owns(pods, ip, u) ensures u == owner {
      OwnerIsUnique(pods, ip, u);
      OwnerIsUnique(pods, ip, owner);
    }
  }

  /** Services some slice puts the pod or the address into. */
  ghost function ServicesFor(slices: map<SliceKey, SliceRecord>, uid: Uid, ip: Addr): set<ServiceRef> {
    set k | k in slices && (uid in slices[k].podUIDs || ip in slices[k].ips) :: ServiceOf(slices[k])
  }

  function DefaultAccount(sa: string): string {
    if sa == "" then "default" else sa
  }

  function PodWorkload(o: Options, p: PodRecord, ip: Addr, services: set<ServiceRef>,
                       c: Option<CiliumEndpoint>): Workload {
    Workload(KindPod, ip, p.node, p.uid, p.namespace, p.name, DefaultAccount(p.serviceAccount),
             (o.trustDomain, p.namespace, DefaultAccount(p.serviceAccount)), p.labels, services,
             if c.Some? then c.value.identity else 0, if c.Some? then c.value.labels else {})
  }

  function NodeWorkload(ip: Addr, node: string): Workload {
    Workload(KindNode, ip, node, EMPTY_UID, "", "", "", ("", "", ""), map[], {}, 0, {})
  }

  function CiliumOf(cilium: map<PodName, CiliumEndpoint>, p: PodRecord): Option<CiliumEndpoint> {
    var n := PodName(p.namespace, p.name);
    if n in cilium then Some(cilium[n]) else None
  }

  /** The brute-force answer: the owning pod, else the node map entry. */
  ghost function Answer(o: Options, t: Tables, nodeIP: map<Addr, string>, ip: Addr): Option<Workload> {
    match OwnerOf(t.pods, ip)
    case Some(uid) =>
      if uid in t.pods then
        Some(PodWorkload(o, t.pods[uid], ip, ServicesFor(t.slices, uid, ip), CiliumOf(t.cilium, t.pods[uid])))
      else None
    case None => if ip in nodeIP then Some(NodeWorkload(ip, nodeIP[ip])) else None
  }

  ghost function Listed(pods: map<Uid, PodRecord>): set<Addr> {
    set u, ip | u in pods && ip in pods[u].ips :: ip
  }

  /** Every IP that has an answer, with its answer. */
  ghost function AnswerMap(o: Options, t: Tables, nodeIP: map<Addr, string>): map<Addr, Workload> {
    map ip | ip in Listed(t.pods) + nodeIP.Keys && Answer(o, t, nodeIP, ip).Some? :: Answer(o, t, nodeIP, ip).value
  }

  lemma AnswerMapIsComplete(o: Options, t: Tables, nodeIP: map<Addr, string>, ip: Addr)
    ensures Find(AnswerMap(o, t, nodeIP), ip) == Answer(o, t, nodeIP, ip)
  {
    hide PodWorkload, ServicesFor, CiliumOf, NodeWorkload;
    if Answer(o, t, nodeIP, ip).Some? && ip !in nodeIP {
      var uid := OwnerOf(t.pods, ip).value;
      assert Owns(t.pods, ip, uid);
      assert ip in Listed(t.pods);
    }
  }

  /*** Events ***/

  datatype Event =
    | UpsertPod(pod: PodRecord)
    | DeletePod(uid: Uid)
    | UpsertSlice(slice: SliceRecord)
    | DeleteSlice(sliceKey: SliceKey)
    | UpsertCilium(endpoint: CiliumEndpoint)
    | DeleteCilium(pod_name: PodName)

  function Apply(o: Options, t: Tables, e: Event): Tables {
    match e
    case UpsertPod(p) =>
      t.(pods := if Indexed(p) then t.pods[p.uid := StoredPod(o, p)] else t.pods - {p.uid})
    case DeletePod(uid) => t.(pods := t.pods - {uid})
    case UpsertSlice(s) =>
      t.(slices := if s.service != "" then t.slices[KeyOf(s) := StoredSlice(s)] else t.slices - {KeyOf(s)})
    case DeleteSlice(k) => t.(slices := t.slices - {k})
    case UpsertCilium(c) => t.(cilium := t.cilium[PodName(c.namespace, c.name) := c])
    case DeleteCilium(n) => t.(cilium := t.cilium - {n})
  }

  const EMPTY := Tables(map[], map[], map[])

  function After(o: Options, events: seq<Event>): Tables {
    if events == [] then EMPTY else Apply(o, After(o, events[..|events| - 1]), events[|events| - 1])
  }

  /** What the last event about a pod says: its record, or that there is none. */
  function LastPod(o: Options, events: seq<Event>, uid: Uid): Option<PodRecord> {
    if events == [] then None
    else
      match events[|events| - 1]
      case UpsertPod(p) =>
        if p.uid != uid then LastPod(o, events[..|events| - 1], uid)
        else if Indexed(p) then Some(StoredPod(o, p)) else None
      case DeletePod(u) => if u == uid then None else LastPod(o, events[..|events| - 1], uid)
      case _ => LastPod(o, events[..|events| - 1], uid)
  }

  function LastSlice(events: seq<Event>, k: SliceKey): Option<SliceRecord> {
    if events == [] then None
    else
      match events[|events| - 1]
      case UpsertSlice(s) =>
        if KeyOf(s) != k then LastSlice(events[..|events| - 1], k)
        else if s.service != "" then Some(StoredSlice(s)) else None
      case DeleteSlice(k') => if k' == k then None else LastSlice(events[..|events| - 1], k)
      case _ => LastSlice(events[..|events| - 1], k)
  }

  function LastCilium(events: seq<Event>, n: PodName): Option<CiliumEndpoint> {
    if events == [] then None
    else
      match events[|events| - 1]
      case UpsertCilium(c) =>
        if PodName(c.namespace, c.name) == n then Some(c) else LastCilium(events[..|events| - 1], n)
      case DeleteCilium(n') => if n' == n then None else LastCilium(events[..|events| - 1], n)
      case _ => LastCilium(events[..|events| - 1], n)
  }

  lemma {:induction false} TablesHoldLastPod(o: Options, events: seq<Event>, uid: Uid)
    ensures Find(After(o, events).pods, uid) == LastPod(o, events, uid)
  {
    hide StoredPod, Indexed, StoredSlice;
    if events != [] {
      TablesHoldLastPod(o, events[..|events| - 1], uid);
    }
  }

  lemma {:induction false} TablesHoldLastSlice(o: Options, events: seq<Event>, k: SliceKey)
    ensures Find(After(o, events).slices, k) == LastSlice(events, k)
  {
    hide StoredPod, Indexed, StoredSlice, KeyOf;
    if events != [] {
      TablesHoldLastSlice(o, events[..|events| - 1], k);
    }
  }

  lemma {:induction false} TablesHoldLastCilium(o: Options, events: seq<Event>, n: PodName)
    ensures Find(After(o, events).cilium, n) == LastCilium(events, n)
  {
    hide StoredPod, Indexed, StoredSlice, KeyOf;
    if events != [] {
      TablesHoldLastCilium(o, events[..|events| - 1], n);
    }
  }

  /**
   Two event sequences, in any order and with any repetitions, late deletes or reused IPs, that end with
   the same last record per pod, slice and Cilium endpoint give the same answer for every IP some pod
   lists, whatever the node maps hold.
   */
  lemma Confluence(o: Options, a: seq<Event>, b: seq<Event>, nodesA: map<Addr, string>, nodesB: map<Addr, string>,
                   ip: Addr)
    requires forall uid :: LastPod(o, a, uid) == LastPod(o, b, uid)
    requires forall k :: LastSlice(a, k) == LastSlice(b, k)
    requires forall n :: LastCilium(a, n) == LastCilium(b, n)
    ensures After(o, a) == After(o, b)
    ensures OwnerOf(After(o, a).pods, ip).Some?
            ==> Answer(o, After(o, a), nodesA, ip) == Answer(o, After(o, b), nodesB, ip)
  {
    hide LastPod, LastSlice, LastCilium, Find, After;
    var x, y := After(o, a), After(o, b);
    forall uid ensures Find(x.pods, uid) == Find(y.pods, uid) {
      TablesHoldLastPod(o, a, uid);
      TablesHoldLastPod(o, b, uid);
    }
    SameMap(x.pods, y.pods);
    forall k ensures Find(x.slices, k) == Find(y.slices, k) {
      TablesHoldLastSlice(o, a, k);
      TablesHoldLastSlice(o, b, k);
    }
    SameMap(x.slices, y.slices);
    forall n ensures Find(x.cilium, n) == Find(y.cilium, n) {
      TablesHoldLastCilium(o, a, n);
      TablesHoldLastCilium(o, b, n);
    }
    SameMap(x.cilium, y.cilium);
  }
}
