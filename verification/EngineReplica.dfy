/**
 The engine's index along a run of the identity protocol (hyper-operator/internal/identity/server.go,
 internal/identity/index.go).

 Every delivered difference is applied to the engine's own maps as a batch. Whatever the interleaving, the engine
 stores exactly what it received, and once nothing is pending it answers every lookup as the operator does.
 */
module EngineReplica {
  import opened Basics
  import opened RefCounts
  import opened IdentityTables
  import OperatorIndex
  import EngineIndex
  import opened DeltaSync

  /** What the engine stores. */
  datatype Engine = Engine(
    workloads: map<Addr, EngineIndex.EngineWorkload>, services: EngineIndex.Objects, reverse: EngineIndex.Reverse)

  /** A batch of workloads, its removals listed in any order. */
  ghost predicate StoresWorkloads(e: Engine, d: Diff<Addr, Workload>, e': Engine) {
    && e'.services == e.services && e'.reverse == e.reverse
    && exists removed: seq<Addr> | Elems(removed) == d.remove ::
         EngineIndex.WorkloadsPatched(e.workloads, d.update, d.update.Keys, removed, e'.workloads)
  }

  ghost predicate StoresServices(e: Engine, d: Diff<ServiceRef, Service>, e': Engine) {
    && e'.workloads == e.workloads
    && EngineIndex.ServicesPatched(e.services, e.reverse, d.update, d.remove, e'.services, e'.reverse)
  }

  /** A step that reaches the engine's lane for workloads, or the one for Services. */
  ghost predicate DeliversWorkloads(s: State, e: Engine, t: State, e': Engine) {
    && Delivered(s.workloadLane, t.workloadLane) && t == s.(workloadLane := t.workloadLane)
    && StoresWorkloads(e, s.workloadLane.queue[0], e')
  }

  ghost predicate DeliversServices(s: State, e: Engine, t: State, e': Engine) {
    && Delivered(s.serviceLane, t.serviceLane) && t == s.(serviceLane := t.serviceLane)
    && StoresServices(e, s.serviceLane.queue[0], e')
  }

  /** A step the engine does not notice. */
  ghost predicate Elsewhere(s: State, t: State) {
    || Changes(s, t) || Wakes(s, t) || ReadsWorkloads(s, t) || Pushes(s, t)
    || (Coalesced(s.workloadLane, t.workloadLane) && t == s.(workloadLane := t.workloadLane))
    || (Coalesced(s.serviceLane, t.serviceLane) && t == s.(serviceLane := t.serviceLane))
  }

  ghost predicate NextWith(s: State, e: Engine, t: State, e': Engine) {
    DeliversWorkloads(s, e, t, e') || DeliversServices(s, e, t, e') || (Elsewhere(s, t) && e' == e)
  }

  /** A run of the protocol with the engine's index beside it. */
  ghost predicate IsEngineRun(run: seq<State>, engines: seq<Engine>) {
    && run != [] && |engines| == |run| && Starts(run[0]) && engines[0] == Engine(map[], map[], map[])
    && forall i | 0 < i < |run| :: NextWith(run[i - 1], engines[i - 1], run[i], engines[i])
  }

  lemma EngineRunIsRun(run: seq<State>, engines: seq<Engine>)
    requires IsEngineRun(run, engines)
    ensures IsRun(run)
  {
    forall i | 0 < i < |run| ensures Next(run[i - 1], run[i]) {
      assert NextWith(run[i - 1], engines[i - 1], run[i], engines[i]);
    }
  }

  /*** Workloads ***/

  /** The received workloads, as the engine stores them. */
  function Imported(received: Answers): map<Addr, EngineIndex.EngineWorkload> {
    map n | n in received :: EngineIndex.FromProto(received[n])
  }

  ghost predicate Canonical(a: Answers) {
    forall n | n in a :: EngineIndex.Names(a[n], n)
  }

  ghost predicate PlainNames(names: set<Addr>) {
    forall n | n in names :: !n.Invalid? && !n.Mapped?
  }

  ghost predicate CanonicalDiff(d: Diff<Addr, Workload>) {
    Canonical(d.update) && PlainNames(d.remove)
  }

  lemma CanonicalIsPlain(a: Answers)
    requires Canonical(a)
    ensures PlainNames(a.Keys)
  {
    forall n | n in a ensures !n.Invalid? && !n.Mapped? {
      assert EngineIndex.Names(a[n], n);
    }
  }

  lemma DiffIsCanonical(d: Diff<Addr, Workload>, last: Answers, next: Answers)
    requires IsDiff(d, last, next) && Canonical(last) && Canonical(next)
    ensures CanonicalDiff(d)
  {
    CanonicalIsPlain(last);
  }

  lemma MergeIsCanonical(d: Diff<Addr, Workload>, e: Diff<Addr, Workload>)
    requires CanonicalDiff(d) && CanonicalDiff(e)
    ensures CanonicalDiff(Merge(d, e))
  {
  }

  /** Everything on its way to the engine is named by its own address. */
  ghost predicate CanonicalState(s: State) {
    && Canonical(s.answers) && Canonical(s.workloadLane.last) && (s.phase.HasWorkloads? ==> Canonical(s.phase.next))
    && forall i | 0 <= i < |s.workloadLane.queue| :: CanonicalDiff(s.workloadLane.queue[i])
  }

  lemma PushIsCanonical(before: Lane<Addr, Workload>, next: Answers, after: Lane<Addr, Workload>)
    requires Pushed(before, next, after) && Canonical(before.last) && Canonical(next)
    requires forall i | 0 <= i < |before.queue| :: CanonicalDiff(before.queue[i])
    ensures after.last == next && forall i | 0 <= i < |after.queue| :: CanonicalDiff(after.queue[i])
  {
    hide CanonicalDiff, Canonical;
    var d :| IsDiff(d, before.last, next)
             && after == Lane(next, if d == Diff(map[], {}) then before.queue else before.queue + [d], before.received);
    DiffIsCanonical(d, before.last, next);
  }

  lemma NextIsCanonical(s: State, t: State)
    requires CanonicalState(s) && Next(s, t) && Canonical(t.answers)
    ensures CanonicalState(t)
  {
    hide CanonicalDiff, Canonical, Pushed;
    if Pushes(s, t) {
      PushIsCanonical(s.workloadLane, s.phase.next, t.workloadLane);
    } else if MovesWorkloads(s, t) && Coalesced(s.workloadLane, t.workloadLane) {
      MergeIsCanonical(s.workloadLane.queue[0], s.workloadLane.queue[1]);
    }
  }

  lemma ImportDistributes(received: Answers, d: Diff<Addr, Workload>)
    ensures Imported(Patch(received, d)) ==
            (Imported(received) - d.remove) + map n | n in d.update :: EngineIndex.FromProto(d.update[n])
  {
  }

  /** Storing a difference is storing the map received with it. */
  lemma StoringIsImporting(received: Answers, e: Engine, d: Diff<Addr, Workload>, e': Engine)
    requires CanonicalDiff(d) && e.workloads == Imported(received) && StoresWorkloads(e, d, e')
    ensures e'.workloads == Imported(Patch(received, d))
  {
    hide EngineIndex.WorkloadsPatched, EngineIndex.FromProto;
    var removed: seq<Addr> :| Elems(removed) == d.remove
      && EngineIndex.WorkloadsPatched(e.workloads, d.update, d.update.Keys, removed, e'.workloads);
    forall n | n in removed ensures !n.Invalid? && Unmap(n) == n {
      assert n in Elems(removed);
    }
    EngineIndex.CanonicalPatch(e.workloads, d.update, removed, e'.workloads);
    ImportDistributes(received, d);
  }

  /*** Services ***/

  /** The received Services, as the engine stores them. */
  function ImportedServices(received: Services): map<ServiceRef, Service> {
    map n | n in received :: EngineIndex.AsStored(received[n])
  }

  lemma ServicesDistribute(received: Services, d: Diff<ServiceRef, Service>)
    ensures ImportedServices(Patch(received, d)) == EngineIndex.Patched(ImportedServices(received), d.update, d.remove)
  {
    hide EngineIndex.AsStored;
  }

  /*** The engine holds what it received ***/

  ghost predicate Replica(s: State, e: Engine) {
    && e.workloads == Imported(s.workloadLane.received)
    && EngineIndex.OneName(e.services) && EngineIndex.Sound(e.services, e.reverse)
    && EngineIndex.Contents(e.services) == ImportedServices(s.serviceLane.received)
  }

  lemma NextKeepsReplica(s: State, e: Engine, t: State, e': Engine)
    requires CanonicalState(s) && Replica(s, e) && NextWith(s, e, t, e')
    ensures Replica(t, e')
  {
    hide Imported, ImportedServices, EngineIndex.OneName, EngineIndex.Sound, EngineIndex.Contents, EngineIndex.Patched;
    hide StoresWorkloads, CanonicalDiff, EngineIndex.Complete, EngineIndex.Disjoint, Pushed, Canonical;
    if DeliversWorkloads(s, e, t, e') {
      StoringIsImporting(s.workloadLane.received, e, s.workloadLane.queue[0], e');
      StoresOnlyWorkloads(e, s.workloadLane.queue[0], e');
    } else if DeliversServices(s, e, t, e') {
      ServicesDistribute(s.serviceLane.received, s.serviceLane.queue[0]);
    } else {
      KeepsReceived(s, t);
    }
  }

  lemma StoresOnlyWorkloads(e: Engine, d: Diff<Addr, Workload>, e': Engine)
    requires StoresWorkloads(e, d, e')
    ensures e'.services == e.services && e'.reverse == e.reverse
  {
  }

  lemma KeepsReceived(s: State, t: State)
    requires Elsewhere(s, t)
    ensures t.workloadLane.received == s.workloadLane.received && t.serviceLane.received == s.serviceLane.received
  {
  }

  /** Over every run whose answers are named by their own address, the engine stores exactly what it received. */
  lemma {:induction false} EngineHoldsReceived(run: seq<State>, engines: seq<Engine>)
    requires IsEngineRun(run, engines) && forall i | 0 <= i < |run| :: Canonical(run[i].answers)
    ensures CanonicalState(run[|run| - 1]) && Replica(run[|run| - 1], engines[|run| - 1])
  {
    var n := |run| - 1;
    if n == 0 {
      ReplicaStarts(run[0], engines[0]);
    } else {
      hide CanonicalState, Replica, NextWith, Canonical;
      PrefixIsRun(run, engines);
      EngineHoldsReceived(run[..n], engines[..n]);
      NextWithIsNext(run[n - 1], engines[n - 1], run[n], engines[n]);
      NextIsCanonical(run[n - 1], run[n]);
      NextKeepsReplica(run[n - 1], engines[n - 1], run[n], engines[n]);
    }
  }

  lemma PrefixIsRun(run: seq<State>, engines: seq<Engine>)
    requires IsEngineRun(run, engines) && |run| > 1
    ensures var n := |run| - 1;
            && IsEngineRun(run[..n], engines[..n])
            && NextWith(run[n - 1], engines[n - 1], run[n], engines[n])
  {
    hide NextWith;
  }

  lemma ReplicaStarts(s: State, e: Engine)
    requires Starts(s) && Canonical(s.answers) && e == Engine(map[], map[], map[])
    ensures CanonicalState(s) && Replica(s, e)
  {
  }

  lemma NextWithIsNext(s: State, e: Engine, t: State, e': Engine)
    requires NextWith(s, e, t, e')
    ensures Next(s, t)
  {
  }

  /*** The reverse map ***/

  ghost predicate ServicesDisjoint(s: State) {
    EngineIndex.Disjoint(ImportedServices(s.services))
  }

  /** If Services never share a cluster IP, what an engine has received never does. */
  lemma ReceivedStaysDisjoint(run: seq<State>)
    requires IsRun(run) && forall i | 0 <= i < |run| :: ServicesDisjoint(run[i])
    ensures EngineIndex.Disjoint(ImportedServices(run[|run| - 1].serviceLane.received))
  {
    EngineHoldsAPublishedState(run);
    var v := run[|run| - 1].serviceLane.received;
    if v != map[] {
      var i :| 0 <= i < |run| && run[i].services == v;
      assert ServicesDisjoint(run[i]);
    }
  }

  lemma NextKeepsComplete(s: State, e: Engine, t: State, e': Engine)
    requires NextWith(s, e, t, e') && Replica(t, e') && EngineIndex.Complete(e.services, e.reverse)
    requires EngineIndex.Disjoint(ImportedServices(t.serviceLane.received))
    ensures EngineIndex.Complete(e'.services, e'.reverse)
  {
    hide EngineIndex.Complete, EngineIndex.Disjoint, EngineIndex.Contents, EngineIndex.Sound, EngineIndex.OneName;
  }

  /** Then the engine's reverse map is complete after every batch of every run, Services swapping addresses included. */
  lemma {:induction false} EngineStaysComplete(run: seq<State>, engines: seq<Engine>)
    requires IsEngineRun(run, engines)
    requires forall i | 0 <= i < |run| :: Canonical(run[i].answers) && ServicesDisjoint(run[i])
    ensures EngineIndex.Complete(engines[|run| - 1].services, engines[|run| - 1].reverse)
  {
    var n := |run| - 1;
    if n > 0 {
      hide NextWith, Canonical, ServicesDisjoint, Replica, CanonicalState;
      PrefixIsRun(run, engines);
      EngineStaysComplete(run[..n], engines[..n]);
      EngineHoldsReceived(run, engines);
      EngineRunIsRun(run, engines);
      ReceivedStaysDisjoint(run);
      NextKeepsComplete(run[n - 1], engines[n - 1], run[n], engines[n]);
    }
  }

  /*** Lookups ***/

  /** The operator's index at one moment: base tables, nodes and reverse maps. */
  datatype Operator = Operator(
    tables: Tables, nodes: map<string, NodeRecord>, nodeIP: map<Addr, string>, byClusterIP: map<Addr, ServiceRef>)

  /** What a valid operator index publishes: its answers, and Services under plain addresses. */
  ghost predicate Publishes(o: Options, op: Operator, s: State) {
    && OperatorIndex.PlainPods(op.tables.pods)
    && OperatorIndex.Sound(op.nodeIP, OperatorIndex.NodeIPs(op.nodes))
    && OperatorIndex.PlainMap(OperatorIndex.NodeIPs(op.nodes))
    && s.answers == AnswerMap(o, op.tables, op.nodeIP)
    && OperatorIndex.PlainMap(OperatorIndex.ClusterIPs(s.services))
    && OperatorIndex.Sound(op.byClusterIP, OperatorIndex.ClusterIPs(s.services))
  }

  ghost predicate AllPublish(o: Options, ops: seq<Operator>, run: seq<State>) {
    |ops| == |run| && forall i | 0 <= i < |run| :: Publishes(o, ops[i], run[i])
  }

  /** What the operator publishes is named by its own address. */
  lemma AnswersAreCanonical(o: Options, op: Operator, s: State)
    requires Publishes(o, op, s)
    ensures Canonical(s.answers)
  {
    forall n | n in s.answers ensures EngineIndex.Names(s.answers[n], n) {
      if n in Listed(op.tables.pods) {
        var u :| u in op.tables.pods && n in op.tables.pods[u].ips;
        assert Plain(op.tables.pods[u].ips);
      } else {
        var ips := OperatorIndex.NodeIPs(op.nodes);
        assert Plain(ips[op.nodeIP[n]]);
      }
    }
  }

  /** The engine's workload has what the operator's has, apart from the Cilium labels. */
  ghost predicate SameWorkload(w: Workload, e: EngineIndex.EngineWorkload) {
    && e.kind == w.kind && e.ip == w.ip && e.node == w.node && e.podUID == w.podUID && e.namespace == w.namespace
    && e.pod == w.pod && e.serviceAccount == w.serviceAccount && e.spiffeID == w.spiffeID && e.labels == w.labels
    && e.services == w.services && e.securityIdentity == w.securityIdentity
  }

  ghost predicate SameAnswer(answer: Option<Workload>, found: Option<EngineIndex.EngineWorkload>) {
    if answer.Some? then found.Some? && SameWorkload(answer.value, found.value) else found.None?
  }

  /** Answers are about plain addresses, which the wire format keeps. */
  lemma SentIsSame(o: Options, t: Tables, nodeIP: map<Addr, string>, ip: Addr)
    requires Answer(o, t, nodeIP, Unmap(ip)).Some?
    ensures var w := Answer(o, t, nodeIP, Unmap(ip)).value; SameWorkload(w, EngineIndex.FromProto(w))
  {
    hide OwnerOf, ServicesFor, CiliumOf;
  }

  lemma CanonicalEverywhere(run: seq<State>, o: Options, ops: seq<Operator>)
    requires AllPublish(o, ops, run)
    ensures forall i | 0 <= i < |run| :: Canonical(run[i].answers)
  {
    forall i | 0 <= i < |run| ensures Canonical(run[i].answers) {
      assert Publishes(o, ops[i], run[i]);
      AnswersAreCanonical(o, ops[i], run[i]);
    }
  }

  /** When settled, the engine's lookup of any IP gives the operator's brute-force answer, on the fields they share. */
  lemma SettledLookupsAgree(run: seq<State>, engines: seq<Engine>, o: Options, ops: seq<Operator>, ip: Addr)
    requires IsEngineRun(run, engines) && AllPublish(o, ops, run) && Settled(run[|run| - 1])
    ensures var e, op := engines[|run| - 1], ops[|run| - 1];
            SameAnswer(Answer(o, op.tables, op.nodeIP, Unmap(ip)), EngineIndex.LookupIn(e.workloads, ip))
  {
    hide Answer, AnswerMap, NextWith, CanonicalState, EngineIndex.FromProto, SameWorkload;
    CanonicalEverywhere(run, o, ops);
    var n := |run| - 1;
    var op := ops[n];
    if Answer(o, op.tables, op.nodeIP, Unmap(ip)).Some? {
      SentIsSame(o, op.tables, op.nodeIP, ip);
    }
    assert Publishes(o, op, run[n]);
    EngineHoldsReceived(run, engines);
    EngineRunIsRun(run, engines);
    SettledEngineAgrees(run);
    AnswerMapIsComplete(o, op.tables, op.nodeIP, Unmap(ip));
    CanonicalIsPlain(run[n].answers);
  }

  lemma {:induction false} PlainParses(ips: seq<Addr>)
    requires Plain(ips)
    ensures EngineIndex.Parsed(ips) == ips
  {
    if ips != [] {
      var init, a := ips[..|ips| - 1], ips[|ips| - 1];
      assert a in ips && forall b | b in init :: b in ips;
      PlainParses(init);
      assert ips == init + [a];
    }
  }

  /** Plain Services are stored as they are sent. */
  lemma ImportedAsSent(services: Services)
    requires OperatorIndex.PlainMap(OperatorIndex.ClusterIPs(services))
    ensures ImportedServices(services) == services
  {
    forall n | n in services ensures EngineIndex.AsStored(services[n]) == services[n] {
      assert Plain(OperatorIndex.ClusterIPs(services)[n]);
      PlainParses(services[n].clusterIPs);
    }
  }

  /** The operator's answer for a cluster IP. */
  function OperatorService(op: Operator, services: Services, ip: Addr): Option<Service> {
    if Unmap(ip) in op.byClusterIP then Find(services, op.byClusterIP[Unmap(ip)]) else None
  }

  lemma ReverseMapsAgree(services: Services, e: Engine, byClusterIP: map<Addr, ServiceRef>, a: Addr)
    requires EngineIndex.Contents(e.services) == services
    requires EngineIndex.Sound(e.services, e.reverse) && EngineIndex.Complete(e.services, e.reverse)
    requires OperatorIndex.Sound(byClusterIP, OperatorIndex.ClusterIPs(services))
    requires OperatorIndex.Complete(byClusterIP, OperatorIndex.ClusterIPs(services))
    ensures a in e.reverse <==> a in byClusterIP
    ensures a in e.reverse ==>
              byClusterIP[a] in services && EngineIndex.ValueOf(e.reverse[a]) == services[byClusterIP[a]]
  {
    var ips := OperatorIndex.ClusterIPs(services);
    if a in byClusterIP {
      var n := byClusterIP[a];
      assert n in ips && a in ips[n] && n in EngineIndex.Contents(e.services);
      assert n in e.services && a in e.services[n].clusterIPs;
      assert e.reverse[a] == e.services[n];
    }
    if a in e.reverse {
      var n :| n in e.services && e.services[n] == e.reverse[a];
      assert n in EngineIndex.Contents(e.services);
      assert n in ips && a in ips[n];
    }
  }

  /** When settled, engine and operator give the same Service for every cluster IP, if Services never share one. */
  lemma SettledServicesAgree(run: seq<State>, engines: seq<Engine>, o: Options, ops: seq<Operator>, ip: Addr)
    requires IsEngineRun(run, engines) && AllPublish(o, ops, run) && Settled(run[|run| - 1])
    requires forall i | 0 <= i < |run| :: OperatorIndex.PairwiseDisjoint(OperatorIndex.ClusterIPs(run[i].services))
    requires OperatorIndex.Complete(ops[|run| - 1].byClusterIP, OperatorIndex.ClusterIPs(run[|run| - 1].services))
    ensures EngineIndex.ServiceIn(engines[|run| - 1].reverse, ip) ==
            OperatorService(ops[|run| - 1], run[|run| - 1].services, ip)
  {
    hide AnswerMap, NextWith, CanonicalState, EngineIndex.Sound, EngineIndex.Complete, EngineIndex.ValueOf;
    hide OperatorIndex.Complete;
    CanonicalEverywhere(run, o, ops);
    forall i | 0 <= i < |run| ensures ServicesDisjoint(run[i]) {
      assert Publishes(o, ops[i], run[i]);
      DisjointAsSent(run[i]);
    }
    hide ServicesDisjoint, Canonical;
    var n := |run| - 1;
    var e, op, services := engines[n], ops[n], run[n].services;
    assert Publishes(o, op, run[n]);
    EngineHoldsReceived(run, engines);
    EngineStaysComplete(run, engines);
    EngineRunIsRun(run, engines);
    SettledEngineAgrees(run);
    ImportedAsSent(services);
    ReverseMapsAgree(services, e, op.byClusterIP, Unmap(ip));
    InvalidIsNobodys(op.byClusterIP, services);
  }

  lemma DisjointAsSent(s: State)
    requires OperatorIndex.PlainMap(OperatorIndex.ClusterIPs(s.services))
    requires OperatorIndex.PairwiseDisjoint(OperatorIndex.ClusterIPs(s.services))
    ensures ServicesDisjoint(s)
  {
    ImportedAsSent(s.services);
    var ips := OperatorIndex.ClusterIPs(s.services);
    assert forall n | n in s.services :: n in ips && ips[n] == s.services[n].clusterIPs;
  }

  lemma InvalidIsNobodys(byClusterIP: map<Addr, ServiceRef>, services: Services)
    requires OperatorIndex.PlainMap(OperatorIndex.ClusterIPs(services))
    requires OperatorIndex.Sound(byClusterIP, OperatorIndex.ClusterIPs(services))
    ensures Invalid !in byClusterIP
  {
    forall ip | ip in byClusterIP ensures !ip.Invalid? {
      var ips := OperatorIndex.ClusterIPs(services)[byClusterIP[ip]];
      assert Plain(ips) && ip in ips;
    }
  }
}
