/**
 Audit mode over whole streams (internal/engine/executor.go, internal/grpc/handlers.go).

 Over every message sequence the replies are those of a stream that leaves out, message by message, the audited
 filters that deny or fail; and those of a stream without any audited filters that only observe.
 */
module AuditedStreams {
  import opened Basics
  import opened HeaderOverlay
  import opened ChainExecution
  import opened ExtProcStream
  import opened AuditExactness

  /*** Chains without their positions ***/

  /** A state without what the engine records about it. */
  function Bare(s: State): State {
    s.(hits := [], blockedBy := -1)
  }

  function BareLink(s: State, l: Link, phase: Phase): (State, bool) {
    var (t, failed) := RunLink(s, Placed(0, l), phase);
    (Bare(t), failed)
  }

  function BareRun(s: State, chain: seq<Link>, phase: Phase): (State, bool)
    decreases |chain|
  {
    if chain == [] || s.request.verdict.blocked then (s, false)
    else
      var (t, failed) := BareLink(s, chain[0], phase);
      if failed then (t, true) else BareRun(t, chain[1..], phase)
  }

  lemma LinkIsBare(s: State, p: Placed, phase: Phase)
    ensures var (t, failed) := RunLink(s, p, phase); BareLink(Bare(s), p.link, phase) == (Bare(t), failed)
  {
    assert OutcomeOf(p.link.filter, s, phase) == OutcomeOf(p.link.filter, Bare(s), phase);
    hide OutcomeOf;
  }

  lemma {:induction false} ChainIsBare(s: State, chain: seq<Link>, i: nat, phase: Phase)
    requires i <= |chain|
    ensures var (t, failed) := RunChain(s, PlacedFrom(chain, i), phase);
            BareRun(Bare(s), chain[i..], phase) == (Bare(t), failed)
    decreases |chain| - i
  {
    hide RunLink, BareLink;
    if i < |chain| && !s.request.verdict.blocked {
      var p := Placed(i, chain[i]);
      assert PlacedFrom(chain, i)[0] == p && PlacedFrom(chain, i)[1..] == PlacedFrom(chain, i + 1);
      LinkIsBare(s, p, phase);
      var (t, failed) := RunLink(s, p, phase);
      if !failed {
        ChainIsBare(t, chain, i + 1, phase);
        assert chain[i..][1..] == chain[i + 1..];
      }
    }
  }

  /** What the engine records does not influence what a chain does. */
  lemma ExecuteIsBare(s: State, chain: seq<Link>, phase: Phase)
    ensures var (t, failed) := Execute(s, chain, phase); BareRun(Bare(s), chain, phase) == (Bare(t), failed)
  {
    ChainIsBare(s, chain, 0, phase);
    assert chain[0..] == chain;
  }

  /*** Filters that keep a stream in order ***/

  /** A failing run of an enforced link does not pass for an answer. */
  ghost predicate SteadyAt(l: Link, m: Moment) {
    !l.audited && Runs(l.filter, m.phase) ==>
      forall r: Request | r.verdict == QUIET && l.filter.run(m, r).failed ::
        !l.filter.run(m, r).request.verdict.answered
  }

  ghost predicate Proper(l: Link) {
    forall m: Moment :: ProperAt(l, m)
  }

  ghost predicate Steady(l: Link) {
    forall m: Moment :: SteadyAt(l, m)
  }

  ghost predicate AllProper(chain: seq<Link>) {
    forall l | l in chain :: Proper(l)
  }

  ghost predicate AllSteady(chain: seq<Link>) {
    forall l | l in chain :: Steady(l)
  }

  /** A request that goes on carries no verdict; one that failed is blocked and, if filters are steady, unanswered. */
  ghost predicate InOrder(s: State, failed: bool, steady: bool) {
    if failed then s.request.verdict.blocked && (steady ==> !s.request.verdict.answered)
    else s.request.verdict.blocked || s.request.verdict == QUIET
  }

  lemma LinkStaysInOrder(s: State, l: Link, phase: Phase, steady: bool)
    requires s.request.verdict == QUIET && Proper(l) && (steady ==> Steady(l))
    ensures var (t, failed) := BareLink(s, l, phase); InOrder(t, failed, steady)
  {
    var m := Moment(phase, s.endOfStream);
    assert ProperAt(l, m) && (steady ==> SteadyAt(l, m));
  }

  lemma {:induction false} ChainStaysInOrder(s: State, chain: seq<Link>, phase: Phase, steady: bool)
    requires InOrder(s, false, steady) && AllProper(chain) && (steady ==> AllSteady(chain))
    ensures var (t, failed) := BareRun(s, chain, phase); InOrder(t, failed, steady)
    decreases |chain|
  {
    hide BareLink, Proper, Steady;
    if chain != [] && !s.request.verdict.blocked {
      assert chain[0] in chain;
      LinkStaysInOrder(s, chain[0], phase, steady);
      var (t, failed) := BareLink(s, chain[0], phase);
      if !failed {
        ChainStaysInOrder(t, chain[1..], phase, steady);
      }
    }
  }

  /*** Streams side by side ***/

  /** Two streams that differ at most in their chains and their records. */
  ghost predicate Twins(v: View, w: View) {
    v.(chain := [], ctx := Bare(v.ctx)) == w.(chain := [], ctx := Bare(w.ctx))
  }

  lemma TwinsReplyAlike(v: View, w: View, phase: Phase)
    requires Twins(v, w)
    ensures ReplyTo(v, phase) == ReplyTo(w, phase)
  {
    assert v.ctx.request == Bare(v.ctx).request == Bare(w.ctx).request == w.ctx.request;
  }

  /** Two snapshots with the same policy and the same names of chains. */
  ghost predicate SamePolicy(a: Snapshot, b: Snapshot) {
    a.config == b.config && a.chains.Keys == b.chains.Keys
  }

  lemma TwinsReceive(v: View, w: View, m: Message)
    requires Twins(v, w)
    ensures Twins(Received(v, m), Received(w, m))
    ensures Received(v, m).chain == v.chain && Received(v, m).ctx.request.verdict == v.ctx.request.verdict
  {
    hide Folded;
  }

  lemma TwinsResolve(a: Snapshot, b: Snapshot, v: View, w: View)
    requires SamePolicy(a, b) && Twins(v, w)
    ensures Twins(Resolved(a, v), Resolved(b, w))
  {
    TwinsAgree(v, w);
    if !v.resolved && a.config.Some? && !a.config.value.unknownSource(v.ctx.request) {
      var name := a.config.value.route(v.ctx.request);
      assert name in a.chains <==> name in b.chains;
    }
    BlockIsBare(v.ctx, w.ctx, 503, UNAVAILABLE);
    hide Block, Bare;
  }

  lemma TwinsAgree(v: View, w: View)
    requires Twins(v, w)
    ensures v.resolved == w.resolved && v.name == w.name && v.ctx.request == w.ctx.request && Bare(v.ctx) == Bare(w.ctx)
  {
    assert v.ctx.request == Bare(v.ctx).request == Bare(w.ctx).request == w.ctx.request;
  }

  lemma BlockIsBare(s: State, t: State, status: nat, body: string)
    requires Bare(s) == Bare(t)
    ensures Bare(Block(s, status, body)) == Bare(Block(t, status, body))
  {
  }

  lemma LimitsAreBare(s: State, t: State, onTimeout: Action)
    requires Bare(s) == Bare(t)
    ensures Bare(Overloaded(s)) == Bare(Overloaded(t)) && Bare(TimedOut(s, onTimeout)) == Bare(TimedOut(t, onTimeout))
  {
    hide Upserted, WithoutName;
    assert s.request == Bare(s).request == Bare(t).request == t.request;
  }

  lemma TwinsGuard(v: View, w: View, m: Message)
    requires Twins(v, w)
    ensures Twins(Guarded(v, m), Guarded(w, m))
  {
  }

  lemma TwinsPrepare(a: Snapshot, b: Snapshot, v: View, w: View, m: Message)
    requires SamePolicy(a, b) && Twins(v, w)
    ensures Twins(Prepared(a, v, m), Prepared(b, w, m))
  {
    hide Twins, Received, Resolved, Guarded;
    TwinsReceive(v, w, m);
    TwinsResolve(a, b, Received(v, m), Received(w, m));
    TwinsGuard(Resolved(a, Received(v, m)), Resolved(b, Received(w, m)), m);
  }

  /** Chains with the same effect keep twins alike. */
  lemma TwinsRun(a: Snapshot, b: Snapshot, v: View, w: View, c: seq<Link>, d: seq<Link>, phase: Phase, env: Env)
    requires SamePolicy(a, b) && Twins(v, w) && (v.chain == [] <==> w.chain == [])
    requires !Blocked(v) ==> BareRun(Bare(v.ctx), c, phase) == BareRun(Bare(w.ctx), d, phase)
    ensures Twins(RanWith(a, v, c, phase, env), RanWith(b, w, d, phase, env))
  {
    hide Execute, BareRun, Overloaded, TimedOut;
    TwinsAgree(v, w);
    var limits := LimitsOf(a, v.name);
    assert limits == LimitsOf(b, w.name);
    hide LimitsOf, Bare;
    LimitsAreBare(v.ctx, w.ctx, limits.onTimeout);
    if !Blocked(v) {
      ExecuteIsBare(v.ctx, c, phase);
      ExecuteIsBare(w.ctx, d, phase);
      LimitsAreBare(Execute(v.ctx, c, phase).0, Execute(w.ctx, d, phase).0, limits.onTimeout);
    }
  }

  /*** Streams in order ***/

  /** A chain past its deadline is let through. */
  predicate Forgives(limits: Limits) {
    limits.timeout > 0 && limits.onTimeout == Allow
  }

  /** Links are proper; those of a chain that may be let through after a timeout are steady as well. */
  ghost predicate ChainOrderly(snap: Snapshot, name: string, chain: seq<Link>) {
    AllProper(chain) && (Forgives(LimitsOf(snap, name)) ==> AllSteady(chain))
  }

  ghost predicate SnapshotOrderly(snap: Snapshot) {
    forall n | n in snap.chains :: ChainOrderly(snap, n, snap.chains[n])
  }

  ghost predicate StreamInOrder(snap: Snapshot, v: View) {
    InOrder(v.ctx, false, false) && ChainOrderly(snap, v.name, v.chain) && (!v.resolved ==> v.chain == [])
  }

  lemma PreparedInOrder(snap: Snapshot, v: View, m: Message)
    requires SnapshotOrderly(snap) && StreamInOrder(snap, v)
    ensures StreamInOrder(snap, Prepared(snap, v, m))
  {
    hide Received, LimitsOf, Proper, Steady;
    ReceivingKeepsRoute(v, m);
  }

  lemma RanInOrder(snap: Snapshot, v: View, phase: Phase, env: Env)
    requires StreamInOrder(snap, v)
    ensures StreamInOrder(snap, Ran(snap, v, phase, env))
  {
    hide Execute, BareRun, Upserted, WithoutName, LimitsOf, AllProper, AllSteady;
    if !Blocked(v) {
      ExecuteIsBare(v.ctx, v.chain, phase);
      ChainStaysInOrder(Bare(v.ctx), v.chain, phase, Forgives(LimitsOf(snap, v.name)));
    }
  }

  lemma {:induction false} StreamStaysInOrder(snap: Snapshot, s: State, inputs: seq<Input>)
    requires SnapshotOrderly(snap) && s.request.verdict == QUIET
    ensures StreamInOrder(snap, StateAfter(snap, Opened(s), inputs))
  {
    hide Ran, Prepared, Proper, Steady, LimitsOf;
    if inputs != [] {
      hide StreamInOrder, SnapshotOrderly;
      var init, last := inputs[..|inputs| - 1], inputs[|inputs| - 1];
      StreamStaysInOrder(snap, s, init);
      var v := StateAfter(snap, Opened(s), init);
      PreparedInOrder(snap, v, last.message);
      RanInOrder(snap, Prepared(snap, v, last.message), PhaseOf(last.message), last.env);
    }
  }

  /*** Without the recorded filters of each message ***/

  /** A handler that leaves out the audited filters that would deny or fail on this message. */
  function HandledUnrecorded(snap: Snapshot, v: View, m: Message, env: Env): View {
    var w := Prepared(snap, v, m);
    RanWith(snap, w, Enforced(w.ctx, w.chain, PhaseOf(m)), PhaseOf(m), env)
  }

  function StateUnrecorded(snap: Snapshot, v: View, inputs: seq<Input>): View {
    if inputs == [] then v
    else
      var last := inputs[|inputs| - 1];
      HandledUnrecorded(snap, StateUnrecorded(snap, v, inputs[..|inputs| - 1]), last.message, last.env)
  }

  /** Leaving out the recorded links does not change what a chain does, whatever was recorded before. */
  lemma EnforcedRunsAlike(s: State, t: State, chain: seq<Link>, phase: Phase)
    requires Bare(s) == Bare(t) && s.request.verdict == QUIET && AllProper(chain)
    ensures BareRun(Bare(s), chain, phase) == BareRun(Bare(t), Enforced(t, chain, phase), phase)
  {
    hide Execute, BareRun, Enforced;
    forall l | l in chain ensures ProperAt(l, Moment(phase, t.endOfStream)) {
      assert Proper(l);
    }
    hide ProperAt, AllProper;
    AuditNoninterference(t, chain, phase);
    ExecuteIsBare(t, chain, phase);
    ExecuteIsBare(t, Enforced(t, chain, phase), phase);
  }

  function RepliesUnrecorded(snap: Snapshot, v: View, inputs: seq<Input>): (r: seq<Reply>)
    ensures |r| == |inputs|
  {
    if inputs == [] then []
    else
      RepliesUnrecorded(snap, v, inputs[..|inputs| - 1])
      + [ReplyTo(StateUnrecorded(snap, v, inputs), PhaseOf(inputs[|inputs| - 1].message))]
  }

  lemma LastState(snap: Snapshot, v: View, inputs: seq<Input>)
    requires inputs != []
    ensures var last := inputs[|inputs| - 1];
            && StateAfter(snap, v, inputs) ==
               Handled(snap, StateAfter(snap, v, inputs[..|inputs| - 1]), last.message, last.env)
            && Replies(snap, v, inputs) == Replies(snap, v, inputs[..|inputs| - 1]) +
                                           [ReplyTo(StateAfter(snap, v, inputs), PhaseOf(last.message))]
  {
  }

  lemma LastUnrecorded(snap: Snapshot, v: View, inputs: seq<Input>)
    requires inputs != []
    ensures var last := inputs[|inputs| - 1];
            && StateUnrecorded(snap, v, inputs) ==
               HandledUnrecorded(snap, StateUnrecorded(snap, v, inputs[..|inputs| - 1]), last.message, last.env)
            && RepliesUnrecorded(snap, v, inputs) == RepliesUnrecorded(snap, v, inputs[..|inputs| - 1]) +
                                                     [ReplyTo(StateUnrecorded(snap, v, inputs), PhaseOf(last.message))]
  {
  }

  lemma SameChainPrepared(snap: Snapshot, v: View, w: View, m: Message)
    requires Twins(v, w) && v.chain == w.chain
    ensures Prepared(snap, v, m).chain == Prepared(snap, w, m).chain
  {
    hide Received;
    TwinsReceive(v, w, m);
    TwinsReceive(w, v, m);
    TwinsAgree(Received(v, m), Received(w, m));
    hide Twins;
  }

  /** One message, with and without the recorded links. */
  lemma MessageUnrecorded(snap: Snapshot, v: View, w: View, m: Message, env: Env)
    requires SnapshotOrderly(snap) && StreamInOrder(snap, v)
    requires Twins(v, w) && v.chain == w.chain
    ensures var v', w' := Handled(snap, v, m, env), HandledUnrecorded(snap, w, m, env);
            Twins(v', w') && v'.chain == w'.chain
  {
    hide Prepared, Twins, Enforced, BareRun, Execute, SnapshotOrderly, AllProper, AllSteady;
    hide Overloaded, TimedOut, LimitsOf;
    TwinsPrepare(snap, snap, v, w, m);
    SameChainPrepared(snap, v, w, m);
    PreparedInOrder(snap, v, m);
    var v', w' := Prepared(snap, v, m), Prepared(snap, w, m);
    TwinsAgree(v', w');
    if !Blocked(v') {
      EnforcedRunsAlike(v'.ctx, w'.ctx, v'.chain, PhaseOf(m));
    }
    TwinsRun(snap, snap, v', w', v'.chain, Enforced(w'.ctx, w'.chain, PhaseOf(m)), PhaseOf(m), env);
  }

  lemma {:induction false} StreamsAreTwins(snap: Snapshot, s: State, inputs: seq<Input>)
    requires SnapshotOrderly(snap) && s.request.verdict == QUIET
    ensures var v, w := StateAfter(snap, Opened(s), inputs), StateUnrecorded(snap, Opened(s), inputs);
            Twins(v, w) && v.chain == w.chain
  {
    hide SnapshotOrderly;
    if inputs != [] {
      hide Handled, HandledUnrecorded, Twins;
      var init, last := inputs[..|inputs| - 1], inputs[|inputs| - 1];
      StreamsAreTwins(snap, s, init);
      StreamStaysInOrder(snap, s, init);
      MessageUnrecorded(
        snap, StateAfter(snap, Opened(s), init), StateUnrecorded(snap, Opened(s), init), last.message, last.env);
    }
  }

  /**
   Over every message sequence the replies are those of a stream that leaves out, in each message, exactly the
   audited filters that deny or fail there.
   */
  lemma {:induction false} StreamNoninterference(snap: Snapshot, s: State, inputs: seq<Input>)
    requires SnapshotOrderly(snap) && s.request.verdict == QUIET
    ensures Replies(snap, Opened(s), inputs) == RepliesUnrecorded(snap, Opened(s), inputs)
  {
    hide SnapshotOrderly, StateAfter, StateUnrecorded, ReplyTo, Twins;
    if inputs != [] {
      StreamNoninterference(snap, s, inputs[..|inputs| - 1]);
      StreamsAreTwins(snap, s, inputs);
      TwinsReplyAlike(
        StateAfter(snap, Opened(s), inputs), StateUnrecorded(snap, Opened(s), inputs),
        PhaseOf(inputs[|inputs| - 1].message));
    }
  }

  /*** Without filters that only observe ***/

  /** Audited, and every run is recorded without a trace or leaves the request alone; it asks for nothing. */
  ghost predicate Observer(l: Link) {
    l.audited && forall m: Moment | Runs(l.filter, m.phase) ::
      ContainedAt(l.filter, m) && forall r: Request | r.verdict == QUIET ::
        Suppressed(l.filter.run(m, r)) || l.filter.run(m, r) == Outcome(r, false)
  }

  function Dropping(chain: seq<Link>, gone: Link -> bool): seq<Link> {
    if chain == [] then []
    else (if gone(chain[0]) then [] else [chain[0]]) + Dropping(chain[1..], gone)
  }

  /** A chain all of whose dropped links only observe, and from which something is left. */
  ghost predicate DropsObservers(chain: seq<Link>, gone: Link -> bool) {
    && (forall l | l in chain && gone(l) :: Observer(l))
    && (chain == [] <==> Dropping(chain, gone) == [])
  }

  lemma ObserverDoesNothing(s: State, l: Link, phase: Phase)
    requires s == Bare(s) && s.request.verdict == QUIET && Observer(l)
    ensures BareLink(s, l, phase) == (s, false)
  {
    var m := Moment(phase, s.endOfStream);
    if Runs(l.filter, phase) {
      assert ContainedAt(l.filter, m);
      assert Suppressed(l.filter.run(m, s.request)) || l.filter.run(m, s.request) == Outcome(s.request, false);
    }
  }

  lemma {:induction false} DroppingRunsAlike(s: State, chain: seq<Link>, gone: Link -> bool, phase: Phase)
    requires s == Bare(s) && InOrder(s, false, false) && AllProper(chain)
    requires forall l | l in chain && gone(l) :: Observer(l)
    ensures BareRun(s, chain, phase) == BareRun(s, Dropping(chain, gone), phase)
    decreases |chain|
  {
    hide BareLink, Observer, Proper;
    if chain != [] && !s.request.verdict.blocked {
      var l, rest := chain[0], chain[1..];
      assert l in chain && forall k | k in rest :: k in chain;
      var (t, failed) := BareLink(s, l, phase);
      if gone(l) {
        ObserverDoesNothing(s, l, phase);
        DroppingRunsAlike(s, rest, gone, phase);
        assert [] + Dropping(rest, gone) == Dropping(rest, gone);
      } else {
        LinkStaysInOrder(s, l, phase, false);
        LinkLeavesBare(s, l, phase);
        assert ([l] + Dropping(rest, gone))[1..] == Dropping(rest, gone);
        if !failed {
          DroppingRunsAlike(t, rest, gone, phase);
        }
      }
    }
  }

  lemma LinkLeavesBare(s: State, l: Link, phase: Phase)
    ensures BareLink(s, l, phase).0 == Bare(BareLink(s, l, phase).0)
  {
    hide RunLink;
  }

  function DroppedFrom(snap: Snapshot, gone: Link -> bool): Snapshot {
    snap.(chains := map n | n in snap.chains :: Dropping(snap.chains[n], gone))
  }

  ghost predicate SnapshotDrops(snap: Snapshot, gone: Link -> bool) {
    forall n | n in snap.chains :: DropsObservers(snap.chains[n], gone)
  }

  lemma DroppedChainPrepared(snap: Snapshot, gone: Link -> bool, v: View, w: View, m: Message)
    requires Twins(v, w) && w.chain == Dropping(v.chain, gone)
    requires SnapshotDrops(snap, gone) && DropsObservers(v.chain, gone)
    ensures var v', w' := Prepared(snap, v, m), Prepared(DroppedFrom(snap, gone), w, m);
            w'.chain == Dropping(v'.chain, gone) && DropsObservers(v'.chain, gone)
  {
    hide Received, Resolved, Guarded, DropsObservers, Dropping, Twins, SnapshotDrops, DroppedFrom;
    ReceivingKeepsRoute(v, m);
    ReceivingKeepsRoute(w, m);
    TwinsReceive(v, w, m);
    ResolvedDrops(snap, gone, Received(v, m), Received(w, m));
    GuardKeepsChain(Resolved(snap, Received(v, m)), m);
    GuardKeepsChain(Resolved(DroppedFrom(snap, gone), Received(w, m)), m);
  }

  lemma GuardKeepsChain(v: View, m: Message)
    ensures Guarded(v, m).chain == v.chain
  {
  }

  lemma ResolvedDrops(snap: Snapshot, gone: Link -> bool, v: View, w: View)
    requires Twins(v, w) && w.chain == Dropping(v.chain, gone)
    requires SnapshotDrops(snap, gone) && DropsObservers(v.chain, gone)
    ensures var v', w' := Resolved(snap, v), Resolved(DroppedFrom(snap, gone), w);
            w'.chain == Dropping(v'.chain, gone) && DropsObservers(v'.chain, gone)
  {
    TwinsAgree(v, w);
    hide Twins, DropsObservers, Dropping, Block;
  }

  lemma MessageWithoutObservers(snap: Snapshot, gone: Link -> bool, v: View, w: View, m: Message, env: Env)
    requires SnapshotOrderly(snap) && StreamInOrder(snap, v)
    requires Twins(v, w) && w.chain == Dropping(v.chain, gone)
    requires SnapshotDrops(snap, gone) && DropsObservers(v.chain, gone)
    ensures var v', w' := Handled(snap, v, m, env), Handled(DroppedFrom(snap, gone), w, m, env);
            Twins(v', w') && w'.chain == Dropping(v'.chain, gone) && DropsObservers(v'.chain, gone)
  {
    hide Prepared, Twins, BareRun, Execute, SnapshotOrderly, AllProper, AllSteady, Observer, Dropping;
    hide Overloaded, TimedOut, LimitsOf;
    TwinsPrepare(snap, DroppedFrom(snap, gone), v, w, m);
    DroppedChainPrepared(snap, gone, v, w, m);
    PreparedInOrder(snap, v, m);
    var v', w' := Prepared(snap, v, m), Prepared(DroppedFrom(snap, gone), w, m);
    TwinsAgree(v', w');
    if !Blocked(v') {
      DroppingRunsAlike(Bare(v'.ctx), v'.chain, gone, PhaseOf(m));
    }
    TwinsRun(snap, DroppedFrom(snap, gone), v', w', v'.chain, w'.chain, PhaseOf(m), env);
  }

  lemma {:induction false} StreamsWithoutObservers(snap: Snapshot, gone: Link -> bool, s: State, inputs: seq<Input>)
    requires SnapshotOrderly(snap) && SnapshotDrops(snap, gone) && s.request.verdict == QUIET
    ensures var v, w := StateAfter(snap, Opened(s), inputs), StateAfter(DroppedFrom(snap, gone), Opened(s), inputs);
            Twins(v, w) && w.chain == Dropping(v.chain, gone) && DropsObservers(v.chain, gone)
  {
    hide SnapshotOrderly, SnapshotDrops;
    if inputs != [] {
      hide Handled, Twins, DropsObservers, Dropping, DroppedFrom;
      var init, last := inputs[..|inputs| - 1], inputs[|inputs| - 1];
      StreamsWithoutObservers(snap, gone, s, init);
      StreamStaysInOrder(snap, s, init);
      MessageWithoutObservers(
        snap, gone, StateAfter(snap, Opened(s), init), StateAfter(DroppedFrom(snap, gone), Opened(s), init),
        last.message, last.env);
    }
  }

  /** Over every message sequence, taking audited filters that only observe out of the policy changes no reply. */
  lemma {:induction false} ObserversAreInvisible(snap: Snapshot, gone: Link -> bool, s: State, inputs: seq<Input>)
    requires SnapshotOrderly(snap) && SnapshotDrops(snap, gone) && s.request.verdict == QUIET
    ensures Replies(snap, Opened(s), inputs) == Replies(DroppedFrom(snap, gone), Opened(s), inputs)
  {
    hide SnapshotOrderly, SnapshotDrops, StateAfter, ReplyTo, Twins, DroppedFrom;
    if inputs != [] {
      ObserversAreInvisible(snap, gone, s, inputs[..|inputs| - 1]);
      StreamsWithoutObservers(snap, gone, s, inputs);
      TwinsReplyAlike(
        StateAfter(snap, Opened(s), inputs), StateAfter(DroppedFrom(snap, gone), Opened(s), inputs),
        PhaseOf(inputs[|inputs| - 1].message));
    }
  }
}
