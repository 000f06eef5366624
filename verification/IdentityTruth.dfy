/**
 What the identity map answers, said by the events alone (hyper-operator/internal/identity/index.go).

 Which pods, slices and endpoints count, which pod an address belongs to and what its workload holds, each field by
 field, after any sequence of events.
 */
module IdentityTruth {
  import opened Basics
  import opened RefCounts
  import opened IdentityTables

  /*** Events that count ***/

  /** Nothing is said about the pod from event `k` on. */
  ghost predicate PodUntouched(events: seq<Event>, uid: Uid, k: int) {
    forall j | 0 <= k <= j < |events| :: !(events[j].UpsertPod? && events[j].pod.uid == uid)
                                    && !(events[j].DeletePod? && events[j].uid == uid)
  }

  /** Event `k` is the last about its pod, and that runs in the pod network under a UID. */
  ghost predicate LivePod(events: seq<Event>, k: int) {
    && 0 <= k < |events| && events[k].UpsertPod? && PodUntouched(events, events[k].pod.uid, k + 1)
    && !events[k].pod.hostNetwork && !events[k].pod.finished && events[k].pod.uid != 0
  }

  ghost predicate SliceUntouched(events: seq<Event>, namespace: string, name: string, k: int) {
    forall j | 0 <= k <= j < |events| ::
      && !(events[j].UpsertSlice? && events[j].slice.namespace == namespace && events[j].slice.name == name)
      && !(events[j].DeleteSlice? && events[j].sliceKey == SliceKey(namespace, name))
  }

  /** Event `k` is the last about its slice, and that belongs to a Service. */
  ghost predicate LiveSlice(events: seq<Event>, k: int) {
    && 0 <= k < |events| && events[k].UpsertSlice? && events[k].slice.service != ""
    && SliceUntouched(events, events[k].slice.namespace, events[k].slice.name, k + 1)
  }

  ghost predicate CiliumUntouched(events: seq<Event>, namespace: string, name: string, k: int) {
    forall j | 0 <= k <= j < |events| ::
      && !(events[j].UpsertCilium? && events[j].endpoint.namespace == namespace && events[j].endpoint.name == name)
      && !(events[j].DeleteCilium? && events[j].pod_name == PodName(namespace, name))
  }

  ghost predicate LiveCilium(events: seq<Event>, k: int) {
    && 0 <= k < |events| && events[k].UpsertCilium?
    && CiliumUntouched(events, events[k].endpoint.namespace, events[k].endpoint.name, k + 1)
  }

  /** The list names the address, as such or mapped into IPv6. */
  ghost predicate Names(list: seq<Addr>, ip: Addr) {
    (ip in list && (ip.V4? || ip.V6?)) || (ip.V4? && Mapped(ip.bits) in list)
  }

  lemma NamedIsUnique(list: seq<Addr>, ip: Addr)
    ensures ip in UniqueAddrs(list) <==> Names(list, ip)
  {
    UniqueAddrsAreUnique(list);
  }

  /*** Pods ***/

  /** The stored record is the event's, with its addresses normalised and its labels filtered. */
  ghost predicate StoredAs(o: Options, p: PodRecord, r: PodRecord) {
    && r.uid == p.uid && r.namespace == p.namespace && r.name == p.name && r.serviceAccount == p.serviceAccount
    && r.node == p.node && r.created == p.created
    && (forall ip :: ip in r.ips <==> Names(p.ips, ip))
    && (forall l :: l in r.labels <==> l in p.labels && l in o.labelKeys)
    && (forall l | l in r.labels && l in p.labels :: r.labels[l] == p.labels[l])
  }

  lemma PodIsStored(o: Options, p: PodRecord)
    ensures StoredAs(o, p, StoredPod(o, p))
  {
    forall ip ensures ip in StoredPod(o, p).ips <==> Names(p.ips, ip) {
      NamedIsUnique(p.ips, ip);
    }
  }

  /** Event `k` is the live record of the pod with this UID. */
  ghost predicate IsPod(events: seq<Event>, uid: Uid, k: int) {
    LivePod(events, k) && events[k].pod.uid == uid
  }

  /** After any events, the pods in the table are those whose last event is a record of a pod that counts. */
  lemma {:induction false} PodsAreLive(o: Options, events: seq<Event>, uid: Uid)
    ensures uid in After(o, events).pods <==> exists k :: IsPod(events, uid, k)
    ensures forall k | IsPod(events, uid, k) ::
              uid in After(o, events).pods && StoredAs(o, events[k].pod, After(o, events).pods[uid])
  {
    if events != [] {
      var init, n, last := events[..|events| - 1], |events| - 1, events[|events| - 1];
      PodsAreLive(o, init, uid);
      LivePodsStep(events, uid);
      hide StoredAs, StoredPod, StoredSlice, LivePod;
      if last.UpsertPod? && last.pod.uid == uid {
        PodIsStored(o, last.pod);
        assert Indexed(last.pod) ==> IsPod(events, uid, n);
      } else if !(last.DeletePod? && last.uid == uid) {
        forall k | IsPod(init, uid, k) ensures IsPod(events, uid, k) && events[k] == init[k] {
        }
        forall k | IsPod(events, uid, k) ensures IsPod(init, uid, k) && events[k] == init[k] {
        }
      }
    }
  }

  /** Which event speaks for a pod after one more event. */
  lemma LivePodsStep(events: seq<Event>, uid: Uid)
    requires events != []
    ensures var init, n, last := events[..|events| - 1], |events| - 1, events[|events| - 1];
            if last.UpsertPod? && last.pod.uid == uid then
              forall k :: IsPod(events, uid, k) <==>
                          k == n && !last.pod.hostNetwork && !last.pod.finished && uid != 0
            else if last.DeletePod? && last.uid == uid then
              forall k :: !IsPod(events, uid, k)
            else
              forall k :: IsPod(events, uid, k) <==> IsPod(init, uid, k)
  {
    var init, n := events[..|events| - 1], |events| - 1;
    forall k ensures IsPod(events, uid, k) ==> k == n || IsPod(init, uid, k) {
      if IsPod(events, uid, k) && k < n {
        assert init[k] == events[k];
        assert forall j | 0 <= k + 1 <= j < |init| :: init[j] == events[j];
      }
    }
    forall k ensures IsPod(init, uid, k) && PodUntouched(events, uid, n) ==> IsPod(events, uid, k) {
      if IsPod(init, uid, k) && PodUntouched(events, uid, n) {
        assert init[k] == events[k];
        assert forall j | 0 <= k + 1 <= j < |events| :: j == n || init[j] == events[j];
      }
    }
  }

  /*** Slices ***/

  ghost predicate SliceStoredAs(s: SliceRecord, r: SliceRecord) {
    && r.namespace == s.namespace && r.name == s.name && r.service == s.service
    && (forall u :: u in r.podUIDs <==> u in s.podUIDs && u != 0)
    && (forall ip :: ip in r.ips <==> Names(s.ips, ip))
  }

  lemma SliceIsStored(s: SliceRecord)
    ensures SliceStoredAs(s, StoredSlice(s))
  {
    UniqueUidsAreUnique(s.podUIDs);
    forall ip ensures ip in StoredSlice(s).ips <==> Names(s.ips, ip) {
      NamedIsUnique(s.ips, ip);
    }
  }

  ghost predicate IsSlice(events: seq<Event>, key: SliceKey, k: int) {
    LiveSlice(events, k) && events[k].slice.namespace == key.namespace && events[k].slice.name == key.name
  }

  /** After any events, the slices in the table are those whose last event is a record that names a Service. */
  lemma {:induction false} SlicesAreLive(o: Options, events: seq<Event>, key: SliceKey)
    ensures key in After(o, events).slices <==> exists k :: IsSlice(events, key, k)
    ensures forall k | IsSlice(events, key, k) ::
              key in After(o, events).slices && SliceStoredAs(events[k].slice, After(o, events).slices[key])
  {
    if events != [] {
      var init, n, last := events[..|events| - 1], |events| - 1, events[|events| - 1];
      SlicesAreLive(o, init, key);
      LiveSlicesStep(events, key);
      hide SliceStoredAs, StoredPod, StoredSlice, LiveSlice;
      if last.UpsertSlice? && last.slice.namespace == key.namespace && last.slice.name == key.name {
        SliceIsStored(last.slice);
        assert last.slice.service != "" ==> IsSlice(events, key, n);
      } else if !(last.DeleteSlice? && last.sliceKey == key) {
        forall k | IsSlice(init, key, k) ensures IsSlice(events, key, k) && events[k] == init[k] {
        }
        forall k | IsSlice(events, key, k) ensures IsSlice(init, key, k) && events[k] == init[k] {
        }
      }
    }
  }

  lemma LiveSlicesStep(events: seq<Event>, key: SliceKey)
    requires events != []
    ensures var init, n, last := events[..|events| - 1], |events| - 1, events[|events| - 1];
            if last.UpsertSlice? && last.slice.namespace == key.namespace && last.slice.name == key.name then
              forall k :: IsSlice(events, key, k) <==> k == n && last.slice.service != ""
            else if last.DeleteSlice? && last.sliceKey == key then
              forall k :: !IsSlice(events, key, k)
            else
              forall k :: IsSlice(events, key, k) <==> IsSlice(init, key, k)
  {
    var init, n := events[..|events| - 1], |events| - 1;
    forall k ensures IsSlice(events, key, k) ==> k == n || IsSlice(init, key, k) {
      if IsSlice(events, key, k) && k < n {
        assert init[k] == events[k];
        assert forall j | 0 <= k + 1 <= j < |init| :: init[j] == events[j];
      }
    }
    forall k
      ensures IsSlice(init, key, k) && SliceUntouched(events, key.namespace, key.name, n) ==> IsSlice(events, key, k)
    {
      if IsSlice(init, key, k) && SliceUntouched(events, key.namespace, key.name, n) {
        assert init[k] == events[k];
        assert forall j | 0 <= k + 1 <= j < |events| :: j == n || init[j] == events[j];
      }
    }
  }

  /** Event `k` puts the pod or its address into the Service. */
  ghost predicate Serves(events: seq<Event>, ref: ServiceRef, uid: Uid, ip: Addr, k: int) {
    && LiveSlice(events, k) && events[k].slice.namespace == ref.namespace && events[k].slice.service == ref.name
    && ((uid in events[k].slice.podUIDs && uid != 0) || Names(events[k].slice.ips, ip))
  }

  lemma ServicesAreServed(o: Options, events: seq<Event>, uid: Uid, ip: Addr, ref: ServiceRef)
    ensures ref in ServicesFor(After(o, events).slices, uid, ip) <==> exists k :: Serves(events, ref, uid, ip, k)
  {
    hide After, LiveSlice, Names;
    var slices := After(o, events).slices;
    if ref in ServicesFor(slices, uid, ip) {
      var key :| key in slices && (uid in slices[key].podUIDs || ip in slices[key].ips)
                 && ServiceOf(slices[key]) == ref;
      SlicesAreLive(o, events, key);
      var k :| IsSlice(events, key, k);
      LiveIsRecord(events, k);
      assert SliceStoredAs(events[k].slice, slices[key]);
      assert Serves(events, ref, uid, ip, k);
    }
    if k :| Serves(events, ref, uid, ip, k) {
      LiveIsRecord(events, k);
      var key := SliceKey(events[k].slice.namespace, events[k].slice.name);
      SlicesAreLive(o, events, key);
      assert IsSlice(events, key, k);
      assert ServiceOf(slices[key]) == ref;
    }
  }

  lemma LiveIsRecord(events: seq<Event>, k: int)
    requires LiveSlice(events, k)
    ensures 0 <= k < |events| && events[k].UpsertSlice?
  {
  }

  /*** Cilium endpoints ***/

  ghost predicate IsEndpoint(events: seq<Event>, namespace: string, name: string, k: int) {
    LiveCilium(events, k) && events[k].endpoint.namespace == namespace && events[k].endpoint.name == name
  }

  lemma {:induction false} EndpointsAreLive(o: Options, events: seq<Event>, namespace: string, name: string)
    ensures var n := PodName(namespace, name);
            && (n in After(o, events).cilium <==> exists k :: IsEndpoint(events, namespace, name, k))
            && (forall k | IsEndpoint(events, namespace, name, k) ::
                  n in After(o, events).cilium && After(o, events).cilium[n] == events[k].endpoint)
  {
    if events != [] {
      var init, n, last := events[..|events| - 1], |events| - 1, events[|events| - 1];
      EndpointsAreLive(o, init, namespace, name);
      EndpointsStep(events, namespace, name);
      hide StoredPod, StoredSlice, LiveCilium;
      if last.UpsertCilium? && last.endpoint.namespace == namespace && last.endpoint.name == name {
        assert IsEndpoint(events, namespace, name, n);
      } else if !(last.DeleteCilium? && last.pod_name == PodName(namespace, name)) {
        forall k | IsEndpoint(init, namespace, name, k)
          ensures IsEndpoint(events, namespace, name, k) && events[k] == init[k]
        {
        }
        forall k | IsEndpoint(events, namespace, name, k)
          ensures IsEndpoint(init, namespace, name, k) && events[k] == init[k]
        {
        }
      }
    }
  }

  lemma EndpointsStep(events: seq<Event>, namespace: string, name: string)
    requires events != []
    ensures var init, n, last := events[..|events| - 1], |events| - 1, events[|events| - 1];
            if last.UpsertCilium? && last.endpoint.namespace == namespace && last.endpoint.name == name then
              forall k :: IsEndpoint(events, namespace, name, k) <==> k == n
            else if last.DeleteCilium? && last.pod_name == PodName(namespace, name) then
              forall k :: !IsEndpoint(events, namespace, name, k)
            else
              forall k :: IsEndpoint(events, namespace, name, k) <==> IsEndpoint(init, namespace, name, k)
  {
    var init, n := events[..|events| - 1], |events| - 1;
    forall k ensures IsEndpoint(events, namespace, name, k) ==> k == n || IsEndpoint(init, namespace, name, k) {
      if IsEndpoint(events, namespace, name, k) && k < n {
        assert init[k] == events[k];
        assert forall j | 0 <= k + 1 <= j < |init| :: init[j] == events[j];
      }
    }
    forall k
      ensures IsEndpoint(init, namespace, name, k) && CiliumUntouched(events, namespace, name, n)
              ==> IsEndpoint(events, namespace, name, k)
    {
      if IsEndpoint(init, namespace, name, k) && CiliumUntouched(events, namespace, name, n) {
        assert init[k] == events[k];
        assert forall j | 0 <= k + 1 <= j < |events| :: j == n || init[j] == events[j];
      }
    }
  }

  /*** Addresses ***/

  /** Event `k` is the live record of a pod with this address. */
  ghost predicate Claims(events: seq<Event>, ip: Addr, k: int) {
    LivePod(events, k) && Names(events[k].pod.ips, ip)
  }

  /** The pod was created later than any other with this address, or at the same time with the greatest UID. */
  ghost predicate Wins(events: seq<Event>, ip: Addr, k: int) {
    Claims(events, ip, k) && forall j | Claims(events, ip, j) && j != k ::
      var p, q := events[k].pod, events[j].pod;
      p.created > q.created || (p.created == q.created && p.uid > q.uid)
  }

  /** The workload is this pod's, field by field. */
  ghost predicate IsWorkloadOf(o: Options, events: seq<Event>, ip: Addr, p: PodRecord, w: Workload) {
    && w.kind == KindPod && w.ip == ip && w.node == p.node && w.podUID == p.uid
    && w.namespace == p.namespace && w.pod == p.name
    && (p.serviceAccount != "" ==> w.serviceAccount == p.serviceAccount)
    && (p.serviceAccount == "" ==> w.serviceAccount == "default")
    && w.spiffeID == (o.trustDomain, p.namespace, w.serviceAccount)
    && (forall l :: l in w.labels <==> l in p.labels && l in o.labelKeys)
    && (forall l | l in w.labels && l in p.labels :: w.labels[l] == p.labels[l])
    && (forall ref :: ref in w.services <==> exists k :: Serves(events, ref, p.uid, ip, k))
    && (forall k | IsEndpoint(events, p.namespace, p.name, k) ::
          w.securityIdentity == events[k].endpoint.identity && w.ciliumLabels == events[k].endpoint.labels)
    && ((forall k :: !IsEndpoint(events, p.namespace, p.name, k)) ==> w.securityIdentity == 0 && w.ciliumLabels == {})
  }

  ghost predicate IsWorkloadOfNode(ip: Addr, node: string, w: Workload) {
    && w.kind == KindNode && w.ip == ip && w.node == node
    && w.podUID == 0 && w.namespace == "" && w.pod == "" && w.serviceAccount == "" && w.spiffeID == ("", "", "")
    && w.services == {} && w.labels == map[] && w.securityIdentity == 0 && w.ciliumLabels == {}
  }

  lemma ClaimsAreListed(o: Options, events: seq<Event>, ip: Addr, uid: Uid)
    ensures Lists(After(o, events).pods, ip, uid) <==> exists k :: Claims(events, ip, k) && IsPod(events, uid, k)
  {
    hide After, PodUntouched, Names;
    PodsAreLive(o, events, uid);
    var pods := After(o, events).pods;
    if Lists(pods, ip, uid) {
      var k :| IsPod(events, uid, k);
      assert StoredAs(o, events[k].pod, pods[uid]);
      assert Claims(events, ip, k);
    }
    if k :| Claims(events, ip, k) && IsPod(events, uid, k) {
      assert StoredAs(o, events[k].pod, pods[uid]);
    }
  }

  lemma OnePerPod(events: seq<Event>, uid: Uid, j: int, k: int)
    requires IsPod(events, uid, j) && IsPod(events, uid, k)
    ensures j == k
  {
  }

  /** The winning event's pod is the owner of the address. */
  lemma WinnerOwns(o: Options, events: seq<Event>, ip: Addr, k: int)
    requires Wins(events, ip, k)
    ensures OwnerOf(After(o, events).pods, ip) == Some(events[k].pod.uid)
  {
    var uid := events[k].pod.uid;
    var pods := After(o, events).pods;
    hide After, Names;
    ClaimsAreListed(o, events, ip, uid);
    assert IsPod(events, uid, k);
    PodsAreLive(o, events, uid);
    forall u | Lists(pods, ip, u) && u != uid ensures Newer(pods[uid], pods[u]) {
      ClaimsAreListed(o, events, ip, u);
      var j :| Claims(events, ip, j) && IsPod(events, u, j);
      PodsAreLive(o, events, u);
    }
    OwnerIsUnique(pods, ip, uid);
  }

  lemma UidsAlwaysMatch(o: Options, events: seq<Event>)
    ensures UidsMatch(After(o, events).pods)
  {
    hide After, PodUntouched;
    forall uid | uid in After(o, events).pods ensures After(o, events).pods[uid].uid == uid {
      PodsAreLive(o, events, uid);
      var k :| IsPod(events, uid, k);
    }
  }

  /** The owner of an address has the winning event. */
  lemma OwnerWins(o: Options, events: seq<Event>, ip: Addr, uid: Uid) returns (k: int)
    requires Owns(After(o, events).pods, ip, uid)
    ensures Wins(events, ip, k) && events[k].pod.uid == uid
  {
    hide After, Names, PodUntouched;
    var pods := After(o, events).pods;
    ClaimsAreListed(o, events, ip, uid);
    k :| Claims(events, ip, k) && IsPod(events, uid, k);
    PodsAreLive(o, events, uid);
    forall j | Claims(events, ip, j) && j != k
      ensures var p, q := events[k].pod, events[j].pod;
              p.created > q.created || (p.created == q.created && p.uid > q.uid)
    {
      var u := events[j].pod.uid;
      assert IsPod(events, u, j);
      ClaimsAreListed(o, events, ip, u);
      PodsAreLive(o, events, u);
      if u == uid {
        OnePerPod(events, uid, j, k);
      }
    }
  }

  /** An address that some live pod has, one of them wins. */
  lemma ClaimedIsWon(o: Options, events: seq<Event>, ip: Addr, j: int) returns (k: int)
    requires Claims(events, ip, j)
    ensures Wins(events, ip, k)
  {
    hide After, Names, PodUntouched;
    var uid := events[j].pod.uid;
    assert IsPod(events, uid, j);
    ClaimsAreListed(o, events, ip, uid);
    UidsAlwaysMatch(o, events);
    ListedHasOneOwner(After(o, events).pods, ip, uid);
    var owner :| Owns(After(o, events).pods, ip, owner);
    k := OwnerWins(o, events, ip, owner);
  }

  lemma UnclaimedHasNoOwner(o: Options, events: seq<Event>, ip: Addr)
    requires forall k :: !Claims(events, ip, k)
    ensures OwnerOf(After(o, events).pods, ip).None?
  {
    hide After, Claims;
    if uid :| Owns(After(o, events).pods, ip, uid) {
      ClaimsAreListed(o, events, ip, uid);
    }
  }

  lemma WorkloadIsOf(o: Options, events: seq<Event>, ip: Addr, k: int)
    requires LivePod(events, k)
    ensures var t, p := After(o, events), events[k].pod;
            && p.uid in t.pods
            && IsWorkloadOf(o, events, ip, p,
                            PodWorkload(o, t.pods[p.uid], ip, ServicesFor(t.slices, p.uid, ip),
                                        CiliumOf(t.cilium, t.pods[p.uid])))
  {
    var t, p := After(o, events), events[k].pod;
    assert IsPod(events, p.uid, k);
    hide After, PodUntouched, Serves, LiveCilium, Names, ServicesFor;
    PodsAreLive(o, events, p.uid);
    EndpointsAreLive(o, events, p.namespace, p.name);
    forall ref
      ensures ref in ServicesFor(t.slices, p.uid, ip) <==> exists k :: Serves(events, ref, p.uid, ip, k)
    {
      ServicesAreServed(o, events, p.uid, ip, ref);
    }
  }

  /**
   After any events, in any order: an address belongs to the newest live pod that names it, with exactly that pod's
   identity; an address that no live pod names belongs to its node, if it has one. Pods on the host network and
   finished pods are never live.
   */
  lemma AnswersAreTrue(o: Options, events: seq<Event>, nodeIP: map<Addr, string>, ip: Addr)
    ensures (exists k :: Claims(events, ip, k)) <==> (exists k :: Wins(events, ip, k))
    ensures var answer := Answer(o, After(o, events), nodeIP, ip);
            && (forall k | Wins(events, ip, k) ::
                  answer.Some? && IsWorkloadOf(o, events, ip, events[k].pod, answer.value))
            && ((forall k :: !Claims(events, ip, k)) ==>
                  && (answer.Some? <==> ip in nodeIP)
                  && (ip in nodeIP ==> IsWorkloadOfNode(ip, nodeIP[ip], answer.value)))
  {
    hide After, PodUntouched, Names, IsWorkloadOf, PodWorkload, ServicesFor, CiliumOf, OwnerOf;
    if j :| Claims(events, ip, j) {
      var k := ClaimedIsWon(o, events, ip, j);
    } else {
      UnclaimedHasNoOwner(o, events, ip);
    }
    forall k | Wins(events, ip, k)
      ensures var answer := Answer(o, After(o, events), nodeIP, ip);
              answer.Some? && IsWorkloadOf(o, events, ip, events[k].pod, answer.value)
    {
      WinnerOwns(o, events, ip, k);
      WorkloadIsOf(o, events, ip, k);
    }
  }

  /** An address that only pods on the host network or finished pods name is answered as the node's. */
  lemma HostPodsAnswerAsNodes(o: Options, events: seq<Event>, nodeIP: map<Addr, string>, ip: Addr)
    requires ip in nodeIP
    requires forall k | 0 <= k < |events| && events[k].UpsertPod? && Names(events[k].pod.ips, ip) ::
               events[k].pod.hostNetwork || events[k].pod.finished
    ensures var answer := Answer(o, After(o, events), nodeIP, ip);
            answer.Some? && answer.value.kind == KindNode && answer.value.node == nodeIP[ip]
  {
    hide After, Answer, Names;
    AnswersAreTrue(o, events, nodeIP, ip);
  }
}
