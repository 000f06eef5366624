/**
 Distribution of the identity map from the operator to an engine
 (hyper-operator/internal/identity/server.go, internal/identity/index.go).

 The operator index announces changes on a channel with room for one notice, so notices coalesce. The sync
 loop takes a notice, reads workloads and Services at two different moments, and pushes the differences to
 the last push; a delivery may merge pending differences. Whatever the interleaving, once nothing is pending
 everything the operator holds has been received.
 */
module DeltaSync {
  import opened Basics
  import opened RefCounts
  import opened IdentityTables

  /*** Differences ***/

  datatype Diff<K, V> = Diff(update: map<K, V>, remove: set<K>)

  function Patch<K, V>(m: map<K, V>, d: Diff<K, V>): map<K, V> {
    (m - d.remove) + d.update
  }

  function PatchAll<K, V>(m: map<K, V>, ds: seq<Diff<K, V>>): map<K, V> {
    if ds == [] then m else Patch(PatchAll(m, ds[..|ds| - 1]), ds[|ds| - 1])
  }

  ghost predicate IsDiff<K(!new), V>(d: Diff<K, V>, last: map<K, V>, next: map<K, V>) {
    && (forall k :: k in d.update <==> k in next && (k !in last || last[k] != next[k]))
    && (forall k | k in d.update :: d.update[k] == next[k])
    && d.remove == last.Keys - next.Keys
  }

  /** Applying the difference to the last push gives the next state, and nothing unchanged is sent. */
  lemma DiffIsExact<K(!new), V>(d: Diff<K, V>, last: map<K, V>, next: map<K, V>)
    requires IsDiff(d, last, next)
    ensures Patch(last, d) == next
    ensures d == Diff(map[], {}) <==> last == next
  {
    var patched := Patch(last, d);
    forall k ensures k in patched <==> k in next {
    }
    forall k | k in next ensures patched[k] == next[k] {
    }
    if last == next {
      assert d.update.Keys == {};
    }
    assert d == Diff(map[], {}) ==> patched == last;
  }

  method ComputeDiff<K(==, !new), V(==)>(last: map<K, V>, next: map<K, V>) returns (d: Diff<K, V>)
    ensures IsDiff(d, last, next)
  {
    var update: map<K, V> := map[];
    var todo := next.Keys;
    while todo != {}
      invariant todo <= next.Keys
      invariant forall k :: k in update <==> k in next && k !in todo && (k !in last || last[k] != next[k])
      invariant forall k | k in update :: update[k] == next[k]
    {
      var name :| name in todo;
      todo := todo - {name};
      if name !in last || last[name] != next[name] {
        update := update[name := next[name]];
      }
    }
    var remove := {};
    var rest := last.Keys;
    while rest != {}
      invariant rest <= last.Keys
      invariant remove == (last.Keys - rest) - next.Keys
    {
      var name :| name in rest;
      rest := rest - {name};
      if name !in next {
        remove := remove + {name};
      }
    }
    d := Diff(update, remove);
  }

  /** Two consecutive differences as one. */
  function Merge<K, V>(d: Diff<K, V>, e: Diff<K, V>): Diff<K, V> {
    Diff((d.update - e.remove) + e.update, (d.remove - e.update.Keys) + e.remove)
  }

  lemma MergeIsSequential<K, V>(m: map<K, V>, d: Diff<K, V>, e: Diff<K, V>)
    ensures Patch(m, Merge(d, e)) == Patch(Patch(m, d), e)
  {
  }

  lemma {:induction false} PatchFirst<K, V>(m: map<K, V>, ds: seq<Diff<K, V>>)
    requires ds != []
    ensures PatchAll(m, ds) == PatchAll(Patch(m, ds[0]), ds[1..])
  {
    if |ds| > 1 {
      var init := ds[..|ds| - 1];
      PatchFirst(m, init);
      assert ds[1..][..|ds[1..]| - 1] == init[1..];
    } else {
      assert ds == [ds[0]] && PatchAll(m, ds[..0]) == m;
    }
  }

  lemma PatchPush<K, V>(m: map<K, V>, ds: seq<Diff<K, V>>, d: Diff<K, V>)
    ensures PatchAll(m, ds + [d]) == Patch(PatchAll(m, ds), d)
  {
    assert (ds + [d])[..|ds|] == ds;
  }

  lemma PatchMerged<K, V>(m: map<K, V>, ds: seq<Diff<K, V>>)
    requires |ds| >= 2
    ensures PatchAll(m, [Merge(ds[0], ds[1])] + ds[2..]) == PatchAll(m, ds)
  {
    var merged := [Merge(ds[0], ds[1])] + ds[2..];
    PatchFirst(m, merged);
    PatchFirst(m, ds);
    PatchFirst(Patch(m, ds[0]), ds[1..]);
    MergeIsSequential(m, ds[0], ds[1]);
    assert merged[1..] == ds[2..] == ds[1..][1..];
  }

  /*** The protocol ***/

  type Answers = map<Addr, Workload>

  type Services = map<ServiceRef, Service>

  /** Where the sync loop is: waiting, about to read, or holding the workloads it read. */
  datatype Phase = Waiting | Syncing | HasWorkloads(next: Answers)

  /** One resource type on its way to the engine: the last push, what is in flight, what the engine holds. */
  datatype Lane<K, V> = Lane(last: map<K, V>, queue: seq<Diff<K, V>>, received: map<K, V>)

  datatype State = State(
    answers: Answers, services: Services, notice: bool, phase: Phase,
    workloadLane: Lane<Addr, Workload>, serviceLane: Lane<ServiceRef, Service>)

  ghost predicate Pushed<K(!new), V(!new)>(before: Lane<K, V>, next: map<K, V>, after: Lane<K, V>) {
    exists d | IsDiff(d, before.last, next) ::
      after == Lane(next, if d == Diff(map[], {}) then before.queue else before.queue + [d], before.received)
  }

  ghost predicate Delivered<K(!new), V(!new)>(before: Lane<K, V>, after: Lane<K, V>) {
    && before.queue != []
    && after == before.(queue := before.queue[1..], received := Patch(before.received, before.queue[0]))
  }

  ghost predicate Coalesced<K(!new), V(!new)>(before: Lane<K, V>, after: Lane<K, V>) {
    |before.queue| >= 2 && after == before.(queue := [Merge(before.queue[0], before.queue[1])] + before.queue[2..])
  }

  /** Any change of the index leaves a notice, unless one is already waiting. */
  ghost predicate Changes(s: State, t: State) {
    t == s.(answers := t.answers, services := t.services, notice := true)
  }

  ghost predicate Wakes(s: State, t: State) {
    s.phase.Waiting? && s.notice && t == s.(notice := false, phase := Syncing)
  }

  ghost predicate ReadsWorkloads(s: State, t: State) {
    s.phase.Syncing? && t == s.(phase := HasWorkloads(s.answers))
  }

  /** Reads the Services, pushes both differences and remembers what was pushed. */
  ghost predicate Pushes(s: State, t: State) {
    && s.phase.HasWorkloads?
    && Pushed(s.workloadLane, s.phase.next, t.workloadLane)
    && Pushed(s.serviceLane, s.services, t.serviceLane)
    && t == s.(phase := Waiting, workloadLane := t.workloadLane, serviceLane := t.serviceLane)
  }

  ghost predicate MovesWorkloads(s: State, t: State) {
    && t == s.(workloadLane := t.workloadLane)
    && (Delivered(s.workloadLane, t.workloadLane) || Coalesced(s.workloadLane, t.workloadLane))
  }

  ghost predicate MovesServices(s: State, t: State) {
    && t == s.(serviceLane := t.serviceLane)
    && (Delivered(s.serviceLane, t.serviceLane) || Coalesced(s.serviceLane, t.serviceLane))
  }

  ghost predicate Next(s: State, t: State) {
    Changes(s, t) || Wakes(s, t) || ReadsWorkloads(s, t) || Pushes(s, t) || MovesWorkloads(s, t) || MovesServices(s, t)
  }

  /** Whatever the index comes to hold, that is a step, and leaves a notice. */
  lemma AnyChangeIsAStep(s: State, t: State)
    requires t.notice && t.phase == s.phase && t.workloadLane == s.workloadLane && t.serviceLane == s.serviceLane
    ensures Next(s, t)
  {
    assert Changes(s, t);
  }

  /** The first sync starts without a notice, on whatever the index holds. */
  ghost predicate Starts(s: State) {
    && s.phase == Syncing
    && s.workloadLane == Lane(map[], [], map[]) && s.serviceLane == Lane(map[], [], map[])
  }

  /** Everything in flight leads the engine to the last push. */
  ghost predicate OnTheWay<K, V>(l: Lane<K, V>) {
    PatchAll(l.received, l.queue) == l.last
  }

  /** Without a notice, whatever was read or pushed is still current. */
  ghost predicate Fresh(s: State) {
    !s.notice ==>
      match s.phase
      case Waiting => s.workloadLane.last == s.answers && s.serviceLane.last == s.services
      case Syncing => true
      case HasWorkloads(next) => next == s.answers
  }

  ghost predicate Inv(s: State) {
    OnTheWay(s.workloadLane) && OnTheWay(s.serviceLane) && Fresh(s)
  }

  lemma PushKeepsWay<K(!new), V(!new)>(before: Lane<K, V>, next: map<K, V>, after: Lane<K, V>)
    requires OnTheWay(before) && Pushed(before, next, after)
    ensures OnTheWay(after)
  {
    var d :| IsDiff(d, before.last, next)
             && after == Lane(next, if d == Diff(map[], {}) then before.queue else before.queue + [d], before.received);
    DiffIsExact(d, before.last, next);
    PatchPush(before.received, before.queue, d);
  }

  lemma MoveKeepsWay<K(!new), V(!new)>(before: Lane<K, V>, after: Lane<K, V>)
    requires OnTheWay(before) && (Delivered(before, after) || Coalesced(before, after))
    ensures OnTheWay(after)
  {
    if Delivered(before, after) {
      PatchFirst(before.received, before.queue);
    } else {
      PatchMerged(before.received, before.queue);
    }
  }

  lemma NextKeepsInv(s: State, t: State)
    requires Inv(s) && Next(s, t)
    ensures Inv(t)
  {
    hide OnTheWay, Pushed, Delivered, Coalesced;
    if Pushes(s, t) {
      PushKeepsWay(s.workloadLane, s.phase.next, t.workloadLane);
      PushKeepsWay(s.serviceLane, s.services, t.serviceLane);
      PushedLast(s.workloadLane, s.phase.next, t.workloadLane);
      PushedLast(s.serviceLane, s.services, t.serviceLane);
    } else if MovesWorkloads(s, t) {
      MoveKeepsWay(s.workloadLane, t.workloadLane);
      MovedLast(s.workloadLane, t.workloadLane);
    } else if MovesServices(s, t) {
      MoveKeepsWay(s.serviceLane, t.serviceLane);
      MovedLast(s.serviceLane, t.serviceLane);
    }
  }

  lemma PushedLast<K(!new), V(!new)>(before: Lane<K, V>, next: map<K, V>, after: Lane<K, V>)
    requires Pushed(before, next, after)
    ensures after.last == next
  {
  }

  lemma MovedLast<K(!new), V(!new)>(before: Lane<K, V>, after: Lane<K, V>)
    requires Delivered(before, after) || Coalesced(before, after)
    ensures after.last == before.last
  {
  }

  ghost predicate IsRun(run: seq<State>) {
    run != [] && Starts(run[0]) && forall i | 0 < i < |run| :: Next(run[i - 1], run[i])
  }

  lemma {:induction false} RunKeepsInv(run: seq<State>)
    requires IsRun(run)
    ensures Inv(run[|run| - 1])
  {
    if |run| > 1 {
      var init := run[..|run| - 1];
      assert IsRun(init);
      RunKeepsInv(init);
      assert Next(run[|run| - 2], run[|run| - 1]);
      NextKeepsInv(run[|run| - 2], run[|run| - 1]);
    }
  }

  /** Nothing left to notice, to push or to deliver. */
  ghost predicate Settled(s: State) {
    !s.notice && s.phase.Waiting? && s.workloadLane.queue == [] && s.serviceLane.queue == []
  }

  /** No change is lost: a settled engine holds exactly the operator's workloads and Services. */
  lemma SettledEngineAgrees(run: seq<State>)
    requires IsRun(run) && Settled(run[|run| - 1])
    ensures var s := run[|run| - 1]; s.workloadLane.received == s.answers && s.serviceLane.received == s.services
  {
    RunKeepsInv(run);
  }

  /*** Catching up ***/

  function Rank(s: State): nat {
    (if s.notice then 8 else 0)
    + (match s.phase case Waiting => 0 case Syncing => 6 case HasWorkloads(_) => 5)
    + |s.workloadLane.queue| + |s.serviceLane.queue|
  }

  /** Every step other than a change of the index brings the engine closer. */
  lemma StepsComeToAnEnd(s: State, t: State)
    requires Next(s, t) && !Changes(s, t)
    ensures Rank(t) < Rank(s) && t.answers == s.answers && t.services == s.services
  {
  }

  lemma DiffExists<K(!new), V(!new)>(before: Lane<K, V>, next: map<K, V>) returns (after: Lane<K, V>)
    ensures Pushed(before, next, after)
  {
    var d := Diff(map k | k in next && (k !in before.last || before.last[k] != next[k]) :: next[k],
                  before.last.Keys - next.Keys);
    assert IsDiff(d, before.last, next);
    after := Lane(next, if d == Diff(map[], {}) then before.queue else before.queue + [d], before.received);
  }

  /** As long as the engine is behind, the protocol can make such a step. */
  lemma NeverStuck(s: State) returns (t: State)
    requires !Settled(s)
    ensures Next(s, t) && Rank(t) < Rank(s)
  {
    if s.workloadLane.queue != [] {
      var l := s.workloadLane;
      t := s.(workloadLane := l.(queue := l.queue[1..], received := Patch(l.received, l.queue[0])));
      assert MovesWorkloads(s, t);
    } else if s.serviceLane.queue != [] {
      var l := s.serviceLane;
      t := s.(serviceLane := l.(queue := l.queue[1..], received := Patch(l.received, l.queue[0])));
      assert MovesServices(s, t);
    } else if s.phase.Syncing? {
      t := s.(phase := HasWorkloads(s.answers));
    } else if s.phase.HasWorkloads? {
      var w := DiffExists(s.workloadLane, s.phase.next);
      var v := DiffExists(s.serviceLane, s.services);
      t := s.(phase := Waiting, workloadLane := w, serviceLane := v);
      assert Pushes(s, t);
    } else {
      t := s.(notice := false, phase := Syncing);
    }
  }

  /*** Consistency on the way ***/

  /** Every state the engine passes through on its way is one of `past`. */
  ghost predicate Genuine<K, V>(l: Lane<K, V>, past: seq<map<K, V>>) {
    forall k | 0 <= k <= |l.queue| :: PatchAll(l.received, l.queue[..k]) in past
  }

  lemma PushIsGenuine<K(!new), V(!new)>(before: Lane<K, V>, next: map<K, V>, after: Lane<K, V>, past: seq<map<K, V>>)
    requires OnTheWay(before) && Pushed(before, next, after) && Genuine(before, past) && next in past
    ensures Genuine(after, past)
  {
    var d :| IsDiff(d, before.last, next)
             && after == Lane(next, if d == Diff(map[], {}) then before.queue else before.queue + [d], before.received);
    DiffIsExact(d, before.last, next);
    PatchPush(before.received, before.queue, d);
    forall k | 0 <= k <= |after.queue| ensures PatchAll(after.received, after.queue[..k]) in past {
      if k <= |before.queue| {
        assert after.queue[..k] == before.queue[..k];
      } else {
        assert after.queue[..k] == before.queue + [d];
      }
    }
  }

  lemma MoveIsGenuine<K(!new), V(!new)>(before: Lane<K, V>, after: Lane<K, V>, past: seq<map<K, V>>)
    requires (Delivered(before, after) || Coalesced(before, after)) && Genuine(before, past)
    ensures Genuine(after, past)
  {
    forall k | 0 <= k <= |after.queue| ensures PatchAll(after.received, after.queue[..k]) in past {
      if Delivered(before, after) {
        PatchFirst(before.received, before.queue[..k + 1]);
        assert before.queue[..k + 1][1..] == after.queue[..k];
      } else if k == 0 {
        assert after.queue[..k] == before.queue[..k];
      } else {
        PatchMerged(before.received, before.queue[..k + 1]);
        assert [Merge(before.queue[0], before.queue[1])] + before.queue[..k + 1][2..] == after.queue[..k];
      }
    }
  }

  lemma GenuineGrows<K, V>(l: Lane<K, V>, past: seq<map<K, V>>, more: seq<map<K, V>>)
    requires Genuine(l, past)
    ensures Genuine(l, past + more)
  {
  }

  function PastAnswers(run: seq<State>): seq<Answers> {
    if run == [] then [map[]] else PastAnswers(run[..|run| - 1]) + [run[|run| - 1].answers]
  }

  function PastServices(run: seq<State>): seq<Services> {
    if run == [] then [map[]] else PastServices(run[..|run| - 1]) + [run[|run| - 1].services]
  }

  ghost predicate Consistent(s: State, answers: seq<Answers>, services: seq<Services>) {
    && Genuine(s.workloadLane, answers) && Genuine(s.serviceLane, services)
    && (s.phase.HasWorkloads? ==> s.phase.next in answers)
    && s.answers in answers && s.services in services
  }

  lemma NextIsConsistent(s: State, t: State, answers: seq<Answers>, services: seq<Services>)
    requires Inv(s) && Next(s, t) && Consistent(s, answers, services)
    ensures Consistent(t, answers + [t.answers], services + [t.services])
  {
    hide Genuine, Pushed, Delivered, Coalesced, OnTheWay;
    GenuineGrows(s.workloadLane, answers, [t.answers]);
    GenuineGrows(s.serviceLane, services, [t.services]);
    if Pushes(s, t) {
      PushIsGenuine(s.workloadLane, s.phase.next, t.workloadLane, answers + [t.answers]);
      PushIsGenuine(s.serviceLane, s.services, t.serviceLane, services + [t.services]);
    } else if MovesWorkloads(s, t) {
      MoveIsGenuine(s.workloadLane, t.workloadLane, answers + [t.answers]);
    } else if MovesServices(s, t) {
      MoveIsGenuine(s.serviceLane, t.serviceLane, services + [t.services]);
    }
  }

  lemma {:induction false} RunIsConsistent(run: seq<State>)
    requires IsRun(run)
    ensures Consistent(run[|run| - 1], PastAnswers(run), PastServices(run))
  {
    var init := run[..|run| - 1];
    if init == [] {
      StartIsConsistent(run[0]);
      assert PastAnswers(init) == [map[]] && PastServices(init) == [map[]];
      assert PastAnswers(run) == [map[]] + [run[0].answers] == [map[], run[0].answers];
      assert PastServices(run) == [map[]] + [run[0].services] == [map[], run[0].services];
    } else {
      assert IsRun(init);
      RunIsConsistent(init);
      RunKeepsInv(init);
      assert Next(run[|run| - 2], run[|run| - 1]);
      NextIsConsistent(run[|run| - 2], run[|run| - 1], PastAnswers(init), PastServices(init));
    }
  }

  lemma StartIsConsistent(s: State)
    requires Starts(s)
    ensures Consistent(s, [map[], s.answers], [map[], s.services])
  {
  }

  lemma {:induction false} PastIsPublished(run: seq<State>, m: Answers, v: Services)
    ensures m in PastAnswers(run) ==> m == map[] || exists i | 0 <= i < |run| :: run[i].answers == m
    ensures v in PastServices(run) ==> v == map[] || exists i | 0 <= i < |run| :: run[i].services == v
  {
    if run != [] {
      var init := run[..|run| - 1];
      PastIsPublished(init, m, v);
      assert forall i | 0 <= i < |init| :: init[i] == run[i];
    }
  }

  /** An engine never holds a mixture: its workloads, and its Services, are what the operator had at some moment. */
  lemma EngineHoldsAPublishedState(run: seq<State>)
    requires IsRun(run)
    ensures var w := run[|run| - 1].workloadLane.received;
            w == map[] || exists i | 0 <= i < |run| :: run[i].answers == w
    ensures var v := run[|run| - 1].serviceLane.received;
            v == map[] || exists i | 0 <= i < |run| :: run[i].services == v
  {
    RunIsConsistent(run);
    var s := run[|run| - 1];
    assert s.workloadLane.queue[..0] == [] && s.serviceLane.queue[..0] == [];
    assert PatchAll(s.workloadLane.received, s.workloadLane.queue[..0]) in PastAnswers(run);
    assert PatchAll(s.serviceLane.received, s.serviceLane.queue[..0]) in PastServices(run);
    PastIsPublished(run, s.workloadLane.received, s.serviceLane.received);
  }
}
