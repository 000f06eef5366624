/**
 The operator's IP to workload index (hyper-operator/internal/identity/index.go).

 The index keeps derived maps beside its tables: the pods claiming each IP, reference-counted Service
 membership, and the reverse maps of cluster IPs and node IPs. `Valid` ties every derived map to the
 tables; every method keeps it, and `Lookup` returns the brute-force answer.
 */
module OperatorIndex {
  import opened Basics
  import opened RefCounts
  import opened IdentityTables

  /*** Claims ***/

  type Claims = map<Addr, seq<Uid>>

  ghost predicate Claimed(claims: Claims, ip: Addr, uid: Uid) {
    ip in claims && uid in claims[ip]
  }

  ghost predicate ClaimsWellFormed(claims: Claims) {
    forall ip | ip in claims :: claims[ip] != [] && NoDuplicates(claims[ip])
  }

  /** Claims are the pods' addresses, plus those of `uid` that are still being added or dropped. */
  ghost predicate ClaimsTrack(claims: Claims, pods: map<Uid, PodRecord>, uid: Uid, pending: set<Addr>) {
    && ClaimsWellFormed(claims)
    && forall ip, u :: Claimed(claims, ip, u) <==> Lists(pods, ip, u) || (u == uid && ip in pending)
  }

  /** Each claim list holds exactly the pods listing that IP, once each. */
  ghost predicate ClaimsMatch(claims: Claims, pods: map<Uid, PodRecord>) {
    ClaimsWellFormed(claims) && forall ip, u :: Claimed(claims, ip, u) <==> Lists(pods, ip, u)
  }

  function AddClaim(claims: Claims, ip: Addr, uid: Uid): Claims {
    claims[ip := (if ip in claims then claims[ip] else []) + [uid]]
  }

  function Without(s: seq<Uid>, uid: Uid): seq<Uid> {
    if s == [] then []
    else if s[|s| - 1] == uid then Without(s[..|s| - 1], uid)
    else Without(s[..|s| - 1], uid) + [s[|s| - 1]]
  }

  function DropClaim(claims: Claims, ip: Addr, uid: Uid): Claims {
    var left := Without(if ip in claims then claims[ip] else [], uid);
    if left == [] then claims - {ip} else claims[ip := left]
  }

  lemma {:induction false} WithoutRemoves(s: seq<Uid>, uid: Uid)
    ensures forall u :: u in Without(s, uid) <==> u in s && u != uid
    ensures NoDuplicates(s) ==> NoDuplicates(Without(s, uid))
  {
    if s != [] {
      var init, last := s[..|s| - 1], s[|s| - 1];
      WithoutRemoves(init, uid);
      assert s == init + [last];
      if NoDuplicates(s) {
        assert last !in init;
        assert last !in Without(init, uid);
      }
    }
  }

  lemma AddClaimTracks(claims: Claims, pods: map<Uid, PodRecord>, uid: Uid, pending: set<Addr>, ip: Addr)
    requires ClaimsTrack(claims, pods, uid, pending) && uid !in pods && ip !in pending
    ensures ClaimsTrack(AddClaim(claims, ip, uid), pods, uid, pending + {ip})
  {
    assert !Claimed(claims, ip, uid);
    var claims' := AddClaim(claims, ip, uid);
    forall i, u ensures Claimed(claims', i, u) <==> Claimed(claims, i, u) || (i == ip && u == uid) {
    }
  }

  lemma DropClaimTracks(claims: Claims, pods: map<Uid, PodRecord>, uid: Uid, pending: set<Addr>, ip: Addr)
    requires ClaimsTrack(claims, pods, uid, pending) && uid !in pods && ip in pending
    ensures ClaimsTrack(DropClaim(claims, ip, uid), pods, uid, pending - {ip})
  {
    assert Claimed(claims, ip, uid);
    WithoutRemoves(claims[ip], uid);
    hide Without;
    var claims' := DropClaim(claims, ip, uid);
    forall i, u ensures Claimed(claims', i, u) <==> Claimed(claims, i, u) && !(i == ip && u == uid) {
    }
  }

  /** A stored pod, seen as one whose addresses are all still to be dropped. */
  lemma UnstorePod(claims: Claims, pods: map<Uid, PodRecord>, uid: Uid)
    requires ClaimsMatch(claims, pods) && uid in pods
    ensures ClaimsTrack(claims, pods - {uid}, uid, Elems(pods[uid].ips))
  {
    hide ClaimsWellFormed, Claimed;
  }

  lemma StorePod(claims: Claims, pods: map<Uid, PodRecord>, uid: Uid, p: PodRecord)
    requires uid !in pods && ClaimsTrack(claims, pods, uid, Elems(p.ips))
    ensures ClaimsMatch(claims, pods[uid := p])
  {
    hide ClaimsWellFormed, Claimed;
  }

  lemma NothingClaimed(claims: Claims, pods: map<Uid, PodRecord>, uid: Uid)
    ensures ClaimsTrack(claims, pods, uid, {}) <==> ClaimsMatch(claims, pods)
  {
    hide ClaimsWellFormed, Claimed;
  }

  /*** Slices ***/

  function PodParts(slices: map<SliceKey, SliceRecord>): map<SliceKey, Part<Uid>> {
    map k | k in slices :: Part(ServiceOf(slices[k]), slices[k].podUIDs)
  }

  function IpParts(slices: map<SliceKey, SliceRecord>): map<SliceKey, Part<Addr>> {
    map k | k in slices :: Part(ServiceOf(slices[k]), slices[k].ips)
  }

  lemma PartsUpdate(slices: map<SliceKey, SliceRecord>, k: SliceKey, s: SliceRecord)
    ensures PodParts(slices[k := s]) == PodParts(slices)[k := Part(ServiceOf(s), s.podUIDs)]
    ensures IpParts(slices[k := s]) == IpParts(slices)[k := Part(ServiceOf(s), s.ips)]
    ensures PodParts(slices - {k}) == PodParts(slices) - {k}
    ensures IpParts(slices - {k}) == IpParts(slices) - {k}
  {
  }

  /*** Reverse maps ***/

  /** Entries of `owner` are removed, then each of its addresses points to it. */
  ghost function Reassign<N>(m: map<Addr, N>, owner: N, ips: seq<Addr>): map<Addr, N> {
    (map ip | ip in m && m[ip] != owner :: m[ip]) + (map ip | ip in ips :: owner)
  }

  ghost function Unassign<N>(m: map<Addr, N>, owner: N): map<Addr, N> {
    map ip | ip in m && m[ip] != owner :: m[ip]
  }

  /** Every entry names a stored object that lists the address. */
  ghost predicate Sound<N(!new)>(m: map<Addr, N>, ips: map<N, seq<Addr>>) {
    forall ip | ip in m :: m[ip] in ips && ip in ips[m[ip]]
  }

  ghost predicate Complete<N(!new)>(m: map<Addr, N>, ips: map<N, seq<Addr>>) {
    forall n, ip | n in ips && ip in ips[n] :: ip in m && m[ip] == n
  }

  ghost predicate PairwiseDisjoint<N(!new)>(ips: map<N, seq<Addr>>) {
    forall a, b, ip | a in ips && b in ips && ip in ips[a] && ip in ips[b] :: a == b
  }

  lemma ReassignIsSound<N(!new)>(m: map<Addr, N>, ips: map<N, seq<Addr>>, n: N, new': seq<Addr>)
    requires Sound(m, ips)
    ensures Sound(Reassign(m, n, new'), ips[n := new']) && Sound(Unassign(m, n), ips - {n})
  {
  }

  /** A complete reverse map stays complete through an upsert if and only if no two objects then share an address. */
  lemma CompleteIffDisjoint<N(!new)>(m: map<Addr, N>, ips: map<N, seq<Addr>>, n: N, new': seq<Addr>)
    requires Complete(m, ips)
    ensures Complete(Reassign(m, n, new'), ips[n := new']) <==> PairwiseDisjoint(ips[n := new'])
  {
    var ips', m' := ips[n := new'], Reassign(m, n, new');
    if PairwiseDisjoint(ips') {
      forall a, ip | a in ips' && ip in ips'[a] ensures ip in m' && m'[ip] == a {
        if a != n {
          assert a in ips && ip in ips[a];
          assert n in ips' && ips'[n] == new';
        }
      }
    }
    if Complete(m', ips') {
      forall a, b, ip | a in ips' && b in ips' && ip in ips'[a] && ip in ips'[b] ensures a == b {
        assert m'[ip] == a && m'[ip] == b;
      }
    }
  }

  /** A delete never makes a complete reverse map incomplete. */
  lemma DeleteKeepsComplete<N(!new)>(m: map<Addr, N>, ips: map<N, seq<Addr>>, n: N)
    requires Complete(m, ips)
    ensures Complete(Unassign(m, n), ips - {n})
  {
  }

  /** One change of the objects behind a reverse map. */
  datatype Change<N> = Put(n: N, ips: seq<Addr>) | Drop(n: N)

  function ObjectsAfter<N>(changes: seq<Change<N>>): map<N, seq<Addr>> {
    if changes == [] then map[]
    else
      var before := ObjectsAfter(changes[..|changes| - 1]);
      match changes[|changes| - 1]
      case Put(n, ips) => before[n := ips]
      case Drop(n) => before - {n}
  }

  ghost function ReverseAfter<N>(changes: seq<Change<N>>): map<Addr, N> {
    if changes == [] then map[]
    else
      var before := ReverseAfter(changes[..|changes| - 1]);
      match changes[|changes| - 1]
      case Put(n, ips) => Reassign(before, n, ips)
      case Drop(n) => Unassign(before, n)
  }

  /** Over every history in which no two objects ever share an address, the reverse map is sound and complete. */
  lemma {:induction false} ReverseMapStaysComplete<N(!new)>(changes: seq<Change<N>>)
    requires forall k | 0 <= k <= |changes| :: PairwiseDisjoint(ObjectsAfter(changes[..k]))
    ensures Sound(ReverseAfter(changes), ObjectsAfter(changes))
    ensures Complete(ReverseAfter(changes), ObjectsAfter(changes))
  {
    hide Sound, Complete, PairwiseDisjoint, Reassign, Unassign;
    if changes == [] {
      NothingReversed<N>();
    } else {
      var init, last := changes[..|changes| - 1], changes[|changes| - 1];
      forall k | 0 <= k <= |init| ensures PairwiseDisjoint(ObjectsAfter(init[..k])) {
        assert init[..k] == changes[..k];
      }
      ReverseMapStaysComplete(init);
      assert changes[..|changes|] == changes;
      var m, ips := ReverseAfter(init), ObjectsAfter(init);
      match last
      case Put(n, new') =>
        ReassignIsSound(m, ips, n, new');
        CompleteIffDisjoint(m, ips, n, new');
      case Drop(n) =>
        ReassignIsSound(m, ips, n, []);
        DeleteKeepsComplete(m, ips, n);
    }
  }

  lemma NothingReversed<N(!new)>()
    ensures Sound<N>(map[], map[]) && Complete<N>(map[], map[])
  {
  }

  /*** Helpers ***/

  method UniqueAddresses(input: seq<Addr>) returns (out: seq<Addr>)
    ensures out == UniqueAddrs(input)
  {
    out := [];
    for i := 0 to |input|
      invariant out == UniqueAddrs(input[..i])
    {
      assert input[..i + 1][..i] == input[..i];
      if input[i].Invalid? {
        continue;
      }
      var a := Unmap(input[i]);
      if a !in out {
        out := out + [a];
      }
    }
    assert input[..|input|] == input;
  }

  method UniqueIds(input: seq<Uid>) returns (out: seq<Uid>)
    ensures out == UniqueUids(input)
  {
    out := [];
    for i := 0 to |input|
      invariant out == UniqueUids(input[..i])
    {
      assert input[..i + 1][..i] == input[..i];
      if input[i] != EMPTY_UID && input[i] !in out {
        out := out + [input[i]];
      }
    }
    assert input[..|input|] == input;
  }

  /** Removes the entries of `owner` among `ips`, which are all it has. */
  method ReleaseAddresses<N(==)>(m: map<Addr, N>, owner: N, ips: seq<Addr>) returns (out: map<Addr, N>)
    requires forall ip | ip in m && m[ip] == owner :: ip in ips
    ensures out == Unassign(m, owner)
  {
    out := m;
    for i := 0 to |ips|
      invariant forall ip :: ip in out <==> ip in m && !(m[ip] == owner && ip in ips[..i])
      invariant forall ip | ip in out :: out[ip] == m[ip]
    {
      if ips[i] in out && out[ips[i]] == owner {
        out := out - {ips[i]};
      }
    }
    assert ips[..|ips|] == ips;
  }

  method AssignAddresses<N(==)>(ghost m: map<Addr, N>, released: map<Addr, N>, owner: N,
                                ips: seq<Addr>) returns (out: map<Addr, N>)
    requires released == Unassign(m, owner)
    ensures out == Reassign(m, owner, ips)
  {
    out := released;
    for i := 0 to |ips|
      invariant out == released + map ip | ip in ips[..i] :: owner
    {
      out := out[ips[i] := owner];
    }
    assert ips[..|ips|] == ips;
  }

  lemma UnassignAbsent<N(!new)>(m: map<Addr, N>, ips: map<N, seq<Addr>>, n: N)
    requires Sound(m, ips) && n !in ips
    ensures Unassign(m, n) == m
  {
  }

  lemma ClusterIPsUpdate(services: map<ServiceRef, Service>, ref: ServiceRef, svc: Service)
    ensures ClusterIPs(services[ref := svc]) == ClusterIPs(services)[ref := svc.clusterIPs]
  {
  }

  lemma NodeIPsUpdate(nodes: map<string, NodeRecord>, name: string, n: NodeRecord)
    ensures NodeIPs(nodes[name := n]) == NodeIPs(nodes)[name := n.ips]
  {
  }

  /*** The index ***/

  ghost function NodeIPs(nodes: map<string, NodeRecord>): map<string, seq<Addr>> {
    map n | n in nodes :: nodes[n].ips
  }

  ghost function ClusterIPs(services: map<ServiceRef, Service>): map<ServiceRef, seq<Addr>> {
    map r | r in services :: services[r].clusterIPs
  }

  /** The claims are those of the stored pods. */
  ghost predicate PodsOk(pods: map<Uid, PodRecord>, claims: Claims) {
    && UidsMatch(pods) && ClaimsMatch(claims, pods)
    && forall u | u in pods :: NoDuplicates(pods[u].ips)
  }

  ghost predicate PlainPods(pods: map<Uid, PodRecord>) {
    forall u | u in pods :: Plain(pods[u].ips)
  }

  ghost predicate PlainMap<N(!new)>(ips: map<N, seq<Addr>>) {
    forall n | n in ips :: Plain(ips[n])
  }

  /** The reference counts are those of the stored slices. */
  ghost predicate SlicesOk(slices: map<SliceKey, SliceRecord>, podServices: Refs<Uid>, ipServices: Refs<Addr>) {
    && Matches(podServices, PodParts(slices)) && Matches(ipServices, IpParts(slices))
    && forall k | k in slices :: NoDuplicates(slices[k].podUIDs) && NoDuplicates(slices[k].ips)
  }

  class Index {
    const options: Options
    var pods: map<Uid, PodRecord>
    var claims: Claims
    var slices: map<SliceKey, SliceRecord>
    var podServices: Refs<Uid>
    var ipServices: Refs<Addr>
    var services: map<ServiceRef, Service>
    var byClusterIP: map<Addr, ServiceRef>
    var cilium: map<PodName, CiliumEndpoint>
    var nodes: map<string, NodeRecord>
    var nodeIP: map<Addr, string>
    var generation: nat
    var changed: bool  // the one-slot notification channel holds a value

    ghost predicate Valid()
      reads this
    {
      && PodsOk(pods, claims)
      && SlicesOk(slices, podServices, ipServices)
      && Sound(byClusterIP, ClusterIPs(services))
      && Sound(nodeIP, NodeIPs(nodes))
      && PlainPods(pods) && PlainMap(ClusterIPs(services)) && PlainMap(NodeIPs(nodes))
    }

    ghost function Base(): Tables
      reads this
    {
      Tables(pods, slices, cilium)
    }

    constructor (options: Options)
      ensures Valid() && this.options == options && Base() == EMPTY
      ensures services == map[] && nodes == map[] && generation == 0 && !changed
    {
      this.options := options;
      pods, claims, slices, podServices, ipServices := map[], map[], map[], map[], map[];
      services, byClusterIP, cilium, nodes, nodeIP := map[], map[], map[], map[], map[];
      generation, changed := 0, false;
      new;
      assert Matches(podServices, PodParts(slices)) by { NoSlices<Uid>(); assert PodParts(slices) == map[]; }
      assert Matches(ipServices, IpParts(slices)) by { NoSlices<Addr>(); assert IpParts(slices) == map[]; }
    }

    /** Records a change: the send on the full channel is dropped, never blocked on. */
    method Bump()
      modifies this`generation, this`changed
      ensures generation == old(generation) + 1 && changed
    {
      generation := generation + 1;
      changed := true;
    }

    method RemovePod(uid: Uid)
      requires Valid()
      modifies this`pods, this`claims
      ensures Valid() && pods == old(pods) - {uid}
    {
      hide ClaimsMatch, ClaimsTrack, SlicesOk, Sound, NoDuplicates, Plain;
      if uid !in pods {
        assert pods - {uid} == pods;
        return;
      }
      var ips := pods[uid].ips;
      UnstorePod(claims, pods, uid);
      ghost var rest := pods - {uid};
      for i := 0 to |ips|
        invariant pods == old(pods)
        invariant ClaimsTrack(claims, rest, uid, Elems(ips[i..]))
      {
        PendingTail(ips, i);
        DropClaimTracks(claims, rest, uid, Elems(ips[i..]), ips[i]);
        claims := DropClaim(claims, ips[i], uid);
      }
      assert Elems(ips[|ips|..]) == {};
      NothingClaimed(claims, rest, uid);
      pods := pods - {uid};
    }

    method DeletePod(uid: Uid)
      requires Valid()
      modifies this`pods, this`claims, this`generation, this`changed
      ensures Valid() && Base() == Apply(options, old(Base()), IdentityTables.DeletePod(uid))
      ensures generation == old(generation) + 1 && changed
    {
      hide PodsOk, SlicesOk, Sound, Plain;
      RemovePod(uid);
      Bump();
    }

    /** Stores a pod and claims its addresses. */
    method StorePodRecord(uid: Uid, rec: PodRecord)
      requires Valid() && uid !in pods && rec.uid == uid && NoDuplicates(rec.ips) && Plain(rec.ips)
      modifies this`pods, this`claims
      ensures Valid() && pods == old(pods)[uid := rec]
    {
      hide ClaimsMatch, ClaimsTrack, SlicesOk, Sound, Elems, NoDuplicates, Plain;
      NoElems(rec.ips);
      NothingClaimed(claims, pods, uid);
      for i := 0 to |rec.ips|
        invariant pods == old(pods) && ClaimsTrack(claims, pods, uid, Elems(rec.ips[..i]))
      {
        PendingHead(rec.ips, i);
        AddClaimTracks(claims, pods, uid, Elems(rec.ips[..i]), rec.ips[i]);
        claims := AddClaim(claims, rec.ips[i], uid);
      }
      assert rec.ips[..|rec.ips|] == rec.ips;
      StorePod(claims, pods, uid, rec);
      pods := pods[uid := rec];
    }

    method UpsertPod(p: PodRecord)
      requires Valid()
      modifies this`pods, this`claims, this`generation, this`changed
      ensures Valid() && Base() == Apply(options, old(Base()), IdentityTables.UpsertPod(p))
      ensures generation == old(generation) + 1 && changed
    {
      hide PodsOk, SlicesOk, Sound, UniqueAddrs, NoDuplicates, Plain;
      RemovePod(p.uid);
      if p.hostNetwork || p.finished || p.uid == EMPTY_UID {
        Bump();
        return;
      }
      var ips := UniqueAddresses(p.ips);
      UniqueAddrsAreUnique(p.ips);
      UniqueAddrsArePlain(p.ips);
      var rec := p.(ips := ips, labels := map k | k in p.labels && k in options.labelKeys :: p.labels[k]);
      StorePodRecord(p.uid, rec);
      assert pods == old(pods)[p.uid := rec];
      Bump();
    }

    method RemoveSlice(key: SliceKey)
      requires Valid()
      modifies this`slices, this`podServices, this`ipServices
      ensures Valid() && slices == old(slices) - {key}
    {
      hide PodsOk, Matches, Tracks, Sound, Elems, PodParts, IpParts, DropRef, NoDuplicates, Plain;
      if key !in slices {
        assert slices - {key} == slices;
        return;
      }
      var rec := slices[key];
      var svc := ServiceOf(rec);
      ghost var pp, ip := PodParts(slices - {key}), IpParts(slices - {key});
      PartsUpdate(slices, key, rec);
      PartsAt(slices, key);
      UnstoreSlice(podServices, PodParts(slices), key);
      UnstoreSlice(ipServices, IpParts(slices), key);
      var uids, ips := rec.podUIDs, rec.ips;
      for i := 0 to |uids|
        invariant slices == old(slices) && Tracks(podServices, pp, svc, Elems(uids[i..]))
        invariant ipServices == old(ipServices)
      {
        PendingTail(uids, i);
        DropRefTracks(podServices, pp, svc, Elems(uids[i..]), uids[i]);
        podServices := DropRef(podServices, uids[i], svc);
      }
      for i := 0 to |ips|
        invariant slices == old(slices) && Tracks(podServices, pp, svc, Elems(uids[|uids|..]))
        invariant Tracks(ipServices, ip, svc, Elems(ips[i..]))
      {
        PendingTail(ips, i);
        DropRefTracks(ipServices, ip, svc, Elems(ips[i..]), ips[i]);
        ipServices := DropRef(ipServices, ips[i], svc);
      }
      NoTail(uids);
      NoTail(ips);
      NothingPending(podServices, pp, svc);
      NothingPending(ipServices, ip, svc);
      slices := slices - {key};
    }

    method DeleteSlice(key: SliceKey)
      requires Valid()
      modifies this`slices, this`podServices, this`ipServices, this`generation, this`changed
      ensures Valid() && Base() == Apply(options, old(Base()), IdentityTables.DeleteSlice(key))
      ensures generation == old(generation) + 1 && changed
    {
      hide PodsOk, SlicesOk, Sound, Plain;
      RemoveSlice(key);
      Bump();
    }

    /** Stores a slice and counts its members. */
    method StoreSliceRecord(key: SliceKey, rec: SliceRecord)
      requires Valid() && key !in slices && NoDuplicates(rec.podUIDs) && NoDuplicates(rec.ips)
      modifies this`slices, this`podServices, this`ipServices
      ensures Valid() && slices == old(slices)[key := rec]
    {
      hide PodsOk, Matches, Tracks, Sound, Elems, PodParts, IpParts, AddRef, NoDuplicates, Plain;
      var svc, uids, ips := ServiceOf(rec), rec.podUIDs, rec.ips;
      ghost var pp, ip := PodParts(slices), IpParts(slices);
      NoElems(uids);
      NoElems(ips);
      NothingPending(podServices, pp, svc);
      NothingPending(ipServices, ip, svc);
      for i := 0 to |uids|
        invariant slices == old(slices) && Tracks(podServices, pp, svc, Elems(uids[..i]))
        invariant ipServices == old(ipServices)
      {
        PendingHead(uids, i);
        AddRefTracks(podServices, pp, svc, Elems(uids[..i]), uids[i]);
        podServices := AddRef(podServices, uids[i], svc);
      }
      for i := 0 to |ips|
        invariant slices == old(slices) && Tracks(podServices, pp, svc, Elems(uids[..|uids|]))
        invariant Tracks(ipServices, ip, svc, Elems(ips[..i]))
      {
        PendingHead(ips, i);
        AddRefTracks(ipServices, ip, svc, Elems(ips[..i]), ips[i]);
        ipServices := AddRef(ipServices, ips[i], svc);
      }
      assert ips[..|ips|] == ips && uids[..|uids|] == uids;
      PartsUpdate(slices, key, rec);
      PartsKeys(slices);
      StoreSlice(podServices, pp, key, Part(svc, uids));
      StoreSlice(ipServices, ip, key, Part(svc, ips));
      slices := slices[key := rec];
    }

    method UpsertSlice(s: SliceRecord)
      requires Valid()
      modifies this`slices, this`podServices, this`ipServices, this`generation, this`changed
      ensures Valid() && Base() == Apply(options, old(Base()), IdentityTables.UpsertSlice(s))
      ensures generation == old(generation) + 1 && changed
    {
      hide PodsOk, SlicesOk, Sound, UniqueAddrs, UniqueUids, NoDuplicates, Plain;
      var key := KeyOf(s);
      RemoveSlice(key);
      if s.service == "" {
        Bump();
        return;
      }
      var uids := UniqueIds(s.podUIDs);
      var ips := UniqueAddresses(s.ips);
      UniqueAddrsAreUnique(s.ips);
      UniqueUidsAreUnique(s.podUIDs);
      var rec := SliceRecord(s.namespace, s.name, s.service, uids, ips);
      StoreSliceRecord(key, rec);
      assert slices == old(slices)[key := rec];
      Bump();
    }

    method RemoveService(ref: ServiceRef)
      requires Valid()
      modifies this`services, this`byClusterIP
      ensures Valid() && services == old(services) - {ref} && byClusterIP == Unassign(old(byClusterIP), ref)
    {
      hide PodsOk, SlicesOk, Unassign, Plain;
      ReassignIsSound(byClusterIP, ClusterIPs(services), ref, []);
      assert ClusterIPs(services - {ref}) == ClusterIPs(services) - {ref};
      hide Reassign;
      if ref !in services {
        assert services - {ref} == services;
        UnassignAbsent(byClusterIP, ClusterIPs(services), ref);
        return;
      }
      assert forall ip | ip in byClusterIP && byClusterIP[ip] == ref :: ip in services[ref].clusterIPs;
      hide Sound, ClusterIPs;
      byClusterIP := ReleaseAddresses(byClusterIP, ref, services[ref].clusterIPs);
      services := services - {ref};
    }

    method DeleteService(ref: ServiceRef)
      requires Valid()
      modifies this`services, this`byClusterIP, this`generation, this`changed
      ensures Valid() && services == old(services) - {ref} && byClusterIP == Unassign(old(byClusterIP), ref)
      ensures generation == old(generation) + 1 && changed
    {
      hide PodsOk, SlicesOk, Sound, Unassign, Plain;
      RemoveService(ref);
      Bump();
    }

    method UpsertService(svc: Service)
      requires Valid()
      modifies this`services, this`byClusterIP, this`generation, this`changed
      ensures Valid() && generation == old(generation) + 1 && changed
      ensures var ref, ips := ServiceRef(svc.namespace, svc.name), UniqueAddrs(svc.clusterIPs);
              && services == old(services)[ref := svc.(clusterIPs := ips)]
              && byClusterIP == Reassign(old(byClusterIP), ref, ips)
    {
      hide PodsOk, SlicesOk, Sound, Unassign, Reassign, ClusterIPs, UniqueAddrs, Plain;
      var ref := ServiceRef(svc.namespace, svc.name);
      ReassignIsSound(byClusterIP, ClusterIPs(services), ref, UniqueAddrs(svc.clusterIPs));
      RemoveService(ref);
      var ips := UniqueAddresses(svc.clusterIPs);
      UniqueAddrsArePlain(svc.clusterIPs);
      ClusterIPsUpdate(old(services), ref, svc.(clusterIPs := ips));
      services := services[ref := svc.(clusterIPs := ips)];
      byClusterIP := AssignAddresses(old(byClusterIP), byClusterIP, ref, ips);
      assert services == old(services)[ref := svc.(clusterIPs := ips)];
      Bump();
    }

    method UpsertCiliumEndpoint(c: CiliumEndpoint)
      requires Valid()
      modifies this`cilium, this`generation, this`changed
      ensures Valid() && Base() == Apply(options, old(Base()), IdentityTables.UpsertCilium(c))
      ensures generation == old(generation) + 1 && changed
    {
      hide PodsOk, SlicesOk, Sound, Plain;
      cilium := cilium[PodName(c.namespace, c.name) := c];
      Bump();
    }

    method DeleteCiliumEndpoint(n: PodName)
      requires Valid()
      modifies this`cilium, this`generation, this`changed
      ensures Valid() && Base() == Apply(options, old(Base()), IdentityTables.DeleteCilium(n))
      ensures generation == old(generation) + 1 && changed
    {
      hide PodsOk, SlicesOk, Sound, Plain;
      cilium := cilium - {n};
      Bump();
    }

    method RemoveNode(name: string)
      requires Valid()
      modifies this`nodes, this`nodeIP
      ensures Valid() && nodes == old(nodes) - {name} && nodeIP == Unassign(old(nodeIP), name)
    {
      hide PodsOk, SlicesOk, Unassign, Plain;
      ReassignIsSound(nodeIP, NodeIPs(nodes), name, []);
      assert NodeIPs(nodes - {name}) == NodeIPs(nodes) - {name};
      hide Reassign;
      if name !in nodes {
        assert nodes - {name} == nodes;
        UnassignAbsent(nodeIP, NodeIPs(nodes), name);
        return;
      }
      assert forall ip | ip in nodeIP && nodeIP[ip] == name :: ip in nodes[name].ips;
      hide Sound, NodeIPs;
      nodeIP := ReleaseAddresses(nodeIP, name, nodes[name].ips);
      nodes := nodes - {name};
    }

    method DeleteNode(name: string)
      requires Valid()
      modifies this`nodes, this`nodeIP, this`generation, this`changed
      ensures Valid() && nodes == old(nodes) - {name} && nodeIP == Unassign(old(nodeIP), name)
      ensures generation == old(generation) + 1 && changed
    {
      hide PodsOk, SlicesOk, Sound, Unassign, Plain;
      RemoveNode(name);
      Bump();
    }

    method UpsertNode(n: NodeRecord)
      requires Valid()
      modifies this`nodes, this`nodeIP, this`generation, this`changed
      ensures Valid() && generation == old(generation) + 1 && changed
      ensures nodes == old(nodes)[n.name := n.(ips := UniqueAddrs(n.ips))]
      ensures nodeIP == Reassign(old(nodeIP), n.name, UniqueAddrs(n.ips))
    {
      hide PodsOk, SlicesOk, Sound, Unassign, Reassign, NodeIPs, UniqueAddrs, Plain;
      ReassignIsSound(nodeIP, NodeIPs(nodes), n.name, UniqueAddrs(n.ips));
      RemoveNode(n.name);
      var ips := UniqueAddresses(n.ips);
      UniqueAddrsArePlain(n.ips);
      NodeIPsUpdate(old(nodes), n.name, n.(ips := ips));
      nodes := nodes[n.name := n.(ips := ips)];
      nodeIP := AssignAddresses(old(nodeIP), nodeIP, n.name, ips);
      assert nodes == old(nodes)[n.name := n.(ips := ips)];
      Bump();
    }

    /** Picks the pod an IP belongs to among its claimants. */
    method Owner(ip: Addr) returns (best: Option<PodRecord>)
      requires Valid()
      ensures best == match OwnerOf(pods, ip) case Some(u) => Find(pods, u) case None => None
      ensures best.None? <==> ip !in claims
    {
      hide SlicesOk, Sound, OwnerOf, Plain;
      best := None;
      if ip !in claims {
        NobodyOwns(pods, claims, ip);
        return;
      }
      var uids := claims[ip];
      for i := 0 to |uids|
        invariant best.None? <==> i == 0
        invariant best.Some? ==> best.value.uid in uids && best.value.uid in pods && pods[best.value.uid] == best.value
        invariant best.Some? ==> forall j | 0 <= j < i ::
                      uids[j] in pods && (uids[j] == best.value.uid || Newer(best.value, pods[uids[j]]))
      {
        assert Claimed(claims, ip, uids[i]);
        var p := pods[uids[i]];
        if best.None? || p.created > best.value.created || (p.created == best.value.created && p.uid > best.value.uid) {
          best := Some(p);
        }
      }
      ScanFindsOwner(pods, claims, ip, best.value);
    }

    /** The workload behind an IP: a pod, otherwise a node. */
    method Lookup(ip: Addr) returns (r: Option<Workload>)
      requires Valid()
      ensures r == Answer(options, Base(), nodeIP, Unmap(ip))
    {
      hide ClaimsMatch, SlicesOk, Sound, OwnerOf, ServicesFor, PodWorkload, NoDuplicates, Plain;
      var a := Unmap(ip);
      var p := Owner(a);
      OwnerIsStored(pods, a);
      if p.Some? {
        var w := WorkloadOf(p.value, a);
        r := Some(w);
      } else if a in nodeIP {
        r := Some(NodeWorkload(a, nodeIP[a]));
      } else {
        r := None;
      }
    }

    method WorkloadOf(p: PodRecord, ip: Addr) returns (w: Workload)
      requires Valid()
      ensures w == PodWorkload(options, p, ip, ServicesFor(slices, p.uid, ip), CiliumOf(cilium, p))
    {
      hide PodsOk, Sound, Plain;
      var refs := ServicesOf(podServices, p.uid) + ServicesOf(ipServices, ip);
      CountedServices(slices, podServices, ipServices, p.uid, ip);
      w := PodWorkload(options, p, ip, refs, CiliumOf(cilium, p));
    }

    /** Every indexed IP's workload. */
    method Workloads() returns (out: map<Addr, Workload>)
      requires Valid()
      ensures out == AnswerMap(options, Base(), nodeIP)
    {
      hide SlicesOk, Sound, OwnerOf, ServicesFor, PodWorkload, NodeWorkload, CiliumOf, NoDuplicates, ClaimsMatch,
        AnswerMap, Plain;
      out := map[];
      var todo := claims.Keys;
      while todo != {}
        invariant todo <= claims.Keys
        invariant AnswersFor(out, options, Base(), nodeIP, claims.Keys - todo)
        decreases todo
      {
        var ip :| ip in todo;
        todo := todo - {ip};
        var p := Owner(ip);
        OwnerIsStored(pods, ip);
        var w := WorkloadOf(p.value, ip);
        out := out[ip := w];
      }
      var rest := nodeIP.Keys;
      while rest != {}
        invariant rest <= nodeIP.Keys
        invariant AnswersFor(out, options, Base(), nodeIP, claims.Keys + (nodeIP.Keys - rest))
        decreases rest
      {
        var ip :| ip in rest;
        rest := rest - {ip};
        if ip !in claims {
          NobodyOwns(pods, claims, ip);
          out := out[ip := NodeWorkload(ip, nodeIP[ip])];
        }
      }
      AnswersForAll(out, options, Base(), nodeIP, claims);
    }

    method ServiceByClusterIP(ip: Addr) returns (r: Option<Service>)
      requires Valid()
      ensures r.Some? <==> Unmap(ip) in byClusterIP
      ensures r.Some? ==> Unmap(ip) in r.value.clusterIPs && r == Find(services, byClusterIP[Unmap(ip)])
    {
      hide PodsOk, SlicesOk, Plain;
      var a := Unmap(ip);
      r := if a in byClusterIP then Some(services[byClusterIP[a]]) else None;
    }
  }

  /** `out` holds the answers for exactly the addresses in `done`. */
  ghost predicate AnswersFor(out: map<Addr, Workload>, o: Options, t: Tables, nodeIP: map<Addr, string>,
                             done: set<Addr>) {
    && out.Keys == done
    && forall ip | ip in out :: Answer(o, t, nodeIP, ip) == Some(out[ip])
  }

  lemma AnswersForAll(out: map<Addr, Workload>, o: Options, t: Tables, nodeIP: map<Addr, string>, claims: Claims)
    requires AnswersFor(out, o, t, nodeIP, claims.Keys + nodeIP.Keys) && ClaimsMatch(claims, t.pods)
    ensures out == AnswerMap(o, t, nodeIP)
  {
    hide Answer;
    forall ip | ip in Listed(t.pods) ensures ip in claims {
      var u :| u in t.pods && ip in t.pods[u].ips;
      assert Claimed(claims, ip, u);
    }
    forall ip | ip in claims ensures ip in Listed(t.pods) {
      assert Claimed(claims, ip, claims[ip][0]);
    }
  }

  lemma NobodyOwns(pods: map<Uid, PodRecord>, claims: Claims, ip: Addr)
    requires ClaimsMatch(claims, pods) && ip !in claims
    ensures OwnerOf(pods, ip) == None
  {
    forall u ensures !Owns(pods, ip, u) {
      assert !Claimed(claims, ip, u);
    }
  }

  lemma ScanFindsOwner(pods: map<Uid, PodRecord>, claims: Claims, ip: Addr, best: PodRecord)
    requires PodsOk(pods, claims) && ip in claims && best.uid in claims[ip] && best.uid in pods
             && pods[best.uid] == best
    requires forall j | 0 <= j < |claims[ip]| ::
               claims[ip][j] in pods && (claims[ip][j] == best.uid || Newer(best, pods[claims[ip][j]]))
    ensures OwnerOf(pods, ip) == Some(best.uid)
  {
    hide OwnerOf;
    forall u | Lists(pods, ip, u) && u != best.uid ensures Newer(best, pods[u]) {
      assert Claimed(claims, ip, u);
    }
    assert Claimed(claims, ip, best.uid);
    OwnerIsUnique(pods, ip, best.uid);
  }

  lemma OwnerIsStored(pods: map<Uid, PodRecord>, ip: Addr)
    ensures var u := OwnerOf(pods, ip); u.Some? ==> u.value in pods && Owns(pods, ip, u.value)
  {
  }

  /** The union of the two counted sets is what the slices say. */
  lemma CountedServices(slices: map<SliceKey, SliceRecord>, podServices: Refs<Uid>, ipServices: Refs<Addr>, uid: Uid,
                        ip: Addr)
    requires SlicesOk(slices, podServices, ipServices)
    ensures ServicesOf(podServices, uid) + ServicesOf(ipServices, ip) == ServicesFor(slices, uid, ip)
  {
    hide Matches, ServicesOf;
    forall ref ensures ref in ServicesOf(podServices, uid) + ServicesOf(ipServices, ip)
                  <==> ref in ServicesFor(slices, uid, ip) {
      ServicesAreContributed(podServices, PodParts(slices), uid, ref);
      ServicesAreContributed(ipServices, IpParts(slices), ip, ref);
      if k :| k in slices && ServiceOf(slices[k]) == ref && (uid in slices[k].podUIDs || ip in slices[k].ips) {
        assert k in PodParts(slices) && k in IpParts(slices);
        assert PodParts(slices)[k].svc == ref && IpParts(slices)[k].svc == ref;
      }
    }
  }

  lemma NoSlices<K(!new)>()
    ensures Matches<K>(map[], map[])
  {
    forall k: K, ref ensures Contributors<K>(map[], k, ref) == {} {
    }
  }

  lemma NoElems<T>(s: seq<T>)
    ensures Elems(s[..0]) == {}
  {
  }

  lemma NoTail<T>(s: seq<T>)
    ensures Elems(s[|s|..]) == {}
  {
  }

  lemma PartsKeys(slices: map<SliceKey, SliceRecord>)
    ensures PodParts(slices).Keys == slices.Keys && IpParts(slices).Keys == slices.Keys
  {
  }

  lemma PartsAt(slices: map<SliceKey, SliceRecord>, key: SliceKey)
    requires key in slices
    ensures key in PodParts(slices) && PodParts(slices)[key] == Part(ServiceOf(slices[key]), slices[key].podUIDs)
    ensures key in IpParts(slices) && IpParts(slices)[key] == Part(ServiceOf(slices[key]), slices[key].ips)
  {
  }

  /** Taking the next of distinct elements adds it to those taken. */
  lemma PendingHead<T>(s: seq<T>, i: nat)
    requires NoDuplicates(s) && i < |s|
    ensures Elems(s[..i]) + {s[i]} == Elems(s[..i + 1])
    ensures s[i] !in Elems(s[..i])
  {
    assert s[..i + 1] == s[..i] + [s[i]];
  }

  /** Dropping the first of the remaining distinct addresses leaves the others. */
  lemma PendingTail<T>(s: seq<T>, i: nat)
    requires NoDuplicates(s) && i < |s|
    ensures Elems(s[i..]) - {s[i]} == Elems(s[i + 1..])
    ensures s[i] in Elems(s[i..])
  {
    assert s[i..] == [s[i]] + s[i + 1..];
  }
}
