/**
 The firewall in audit mode over whole streams (internal/filters/firewall/firewall.go, internal/grpc/handlers.go).

 In body inspection mode the firewall does more than observe: it asks for the body, and that is enforced. Here is
 exactly when that shows: streams with and without audited firewalls, anywhere in the chains of a policy, give the
 same replies if and only if no response arrives while a body that a firewall asked for is still missing.
 */
module AuditedFirewall {
  import opened Basics
  import opened HeaderOverlay
  import opened ChainExecution
  import opened ExtProcStream
  import opened AuditExactness
  import opened AuditedStreams

  /** The request once a filter has asked for its body. */
  function Asking(r: Request): Request {
    r.(unsaved := r.unsaved.(required := r.unsaved.required + {RequestBody}))
  }

  /** The headers of a request that has a body. */
  const BODY_AHEAD := Moment(RequestHeaders, false)

  /**
   The firewall: with body inspection, the headers of a request with a body only ask for that body; `inspect` is
   the call to the sidecar.
   */
  function Firewall(inspectBody: bool, inspect: (Moment, Request) -> Outcome): Filter {
    Filter(
      Some(if inspectBody then [RequestHeaders, RequestBody] else [RequestHeaders]),
      (m: Moment, r: Request) =>
        if inspectBody && m == BODY_AHEAD then Outcome(Asking(r), false)
        else if m.phase == RequestBody && (!inspectBody || m.endOfStream) then Outcome(r, false)
        else inspect(m, r))
  }

  /** The firewall is as proper as its sidecar call: asking for the body is not a denial. */
  lemma FirewallIsProper(inspectBody: bool, inspect: (Moment, Request) -> Outcome, audited: bool, m: Moment)
    requires TameAt(Filter(None, inspect), m) && ContainedAt(Filter(None, inspect), m)
    ensures ProperAt(Link(Firewall(inspectBody, inspect), audited), m)
  {
  }

  /*** Links that ask and links that do not notice ***/

  /** Recorded without a trace, or nothing done. */
  predicate Harmless(o: Outcome, r: Request) {
    (Suppressed(o) && o.request.unsaved == r.unsaved) || o == Outcome(r, false)
  }

  /** A sidecar call that denies, fails or leaves the request alone. */
  ghost predicate Watches(inspect: (Moment, Request) -> Outcome) {
    forall m: Moment, r: Request | r.verdict == QUIET :: Harmless(inspect(m, r), r)
  }

  /** Audited; asks for the body when there is one to come, and is harmless otherwise. */
  ghost predicate Asker(l: Link) {
    && l.audited && Runs(l.filter, RequestHeaders)
    && forall m: Moment, r: Request | Runs(l.filter, m.phase) && r.verdict == QUIET ::
         if m == BODY_AHEAD then l.filter.run(m, r) == Outcome(Asking(r), false) else Harmless(l.filter.run(m, r), r)
  }

  lemma FirewallIsAsker(inspect: (Moment, Request) -> Outcome)
    requires Watches(inspect)
    ensures Asker(Link(Firewall(true, inspect), true))
  {
  }

  lemma AskerIsOrderly(l: Link)
    requires Asker(l)
    ensures Proper(l) && Steady(l)
  {
  }

  /** What the filter does is the same whether or not the body has been asked for. */
  ghost predicate Blind(l: Link) {
    forall m: Moment, r: Request | r.verdict == QUIET && Runs(l.filter, m.phase) ::
      l.filter.run(m, Asking(r)) == Outcome(Asking(l.filter.run(m, r).request), l.filter.run(m, r).failed)
  }

  ghost predicate AsksOrBlind(chain: seq<Link>, gone: Link -> bool) {
    forall l | l in chain :: if gone(l) then Asker(l) else Blind(l)
  }

  /*** Chains with and without them ***/

  function AskingIf(asked: bool, s: State): State {
    if asked then s.(request := Asking(s.request)) else s
  }

  lemma BlockedAlike(asked: bool, s: State)
    ensures AskingIf(asked, s).request.verdict == s.request.verdict
  {
  }

  lemma AskerRuns(s: State, asked: bool, l: Link, phase: Phase)
    requires s == Bare(s) && s.request.verdict == QUIET && Asker(l)
    ensures BareLink(AskingIf(asked, s), l, phase) ==
            (AskingIf(asked || Moment(phase, s.endOfStream) == BODY_AHEAD, s), false)
  {
    var m, r := Moment(phase, s.endOfStream), AskingIf(asked, s).request;
    if Runs(l.filter, phase) && m != BODY_AHEAD {
      assert Harmless(l.filter.run(m, r), r);
    }
  }

  /** Audit mode and the enforcement of failures do not look at what is asked for. */
  lemma LinkAsking(s: State, l: Link, phase: Phase)
    requires Runs(l.filter, phase)
    requires var o := OutcomeOf(l.filter, s, phase);
             OutcomeOf(l.filter, AskingIf(true, s), phase) == Outcome(Asking(o.request), o.failed)
    ensures var (t, failed) := BareLink(s, l, phase);
            BareLink(AskingIf(true, s), l, phase) == (AskingIf(true, t), failed)
  {
    if l.audited {
      AuditedAsking(s, l.filter, phase);
      hide OutcomeOf, RunAudited;
    } else {
      hide OutcomeOf;
    }
  }

  lemma AuditedAsking(s: State, f: Filter, phase: Phase)
    requires var o := OutcomeOf(f, s, phase);
             OutcomeOf(f, AskingIf(true, s), phase) == Outcome(Asking(o.request), o.failed)
    ensures Bare(RunAudited(AskingIf(true, s), f, 0, phase)) == AskingIf(true, Bare(RunAudited(s, f, 0, phase)))
  {
    hide OutcomeOf;
  }

  lemma BlindRuns(s: State, asked: bool, l: Link, phase: Phase)
    requires s.request.verdict == QUIET && Blind(l)
    ensures var (t, failed) := BareLink(s, l, phase);
            t.endOfStream == s.endOfStream && BareLink(AskingIf(asked, s), l, phase) == (AskingIf(asked, t), failed)
  {
    if Runs(l.filter, phase) {
      LinkAsking(s, l, phase);
    }
  }

  /** On request headers, the chain without its dropped links gets as far as one of them. */
  predicate Reaches(s: State, chain: seq<Link>, gone: Link -> bool)
    decreases |chain|
  {
    chain != [] && !s.request.verdict.blocked &&
    (gone(chain[0]) ||
     var (t, failed) := BareLink(s, chain[0], RequestHeaders); !failed && Reaches(t, chain[1..], gone))
  }

  /** A dropped link would ask for the body. */
  predicate Asks(s: State, chain: seq<Link>, gone: Link -> bool, phase: Phase) {
    Moment(phase, s.endOfStream) == BODY_AHEAD && Reaches(s, chain, gone)
  }

  /** The dropped links only ask for the body, if they are reached when there is one to come. */
  lemma {:induction false} AskersRun(s: State, asked: bool, chain: seq<Link>, gone: Link -> bool, phase: Phase)
    requires s == Bare(s) && InOrder(s, false, false) && AllProper(chain) && AsksOrBlind(chain, gone)
    ensures var (t, failed) := BareRun(s, Dropping(chain, gone), phase);
            BareRun(AskingIf(asked, s), chain, phase) ==
            (AskingIf(asked || Asks(s, chain, gone, phase), t), failed)
    decreases |chain|
  {
    hide BareLink, Asker, Blind, Proper, AskingIf, Bare;
    BlockedAlike(asked, s);
    if chain != [] && !s.request.verdict.blocked {
      var l, rest := chain[0], chain[1..];
      assert l in chain && forall k | k in rest :: k in chain;
      if gone(l) {
        AskerRuns(s, asked, l, phase);
        var asked' := asked || Moment(phase, s.endOfStream) == BODY_AHEAD;
        AskersRun(s, asked', rest, gone, phase);
        assert [] + Dropping(rest, gone) == Dropping(rest, gone);
      } else {
        var (t, failed) := BareLink(s, l, phase);
        BlindRuns(s, asked, l, phase);
        LinkStaysInOrder(s, l, phase, false);
        LinkLeavesBare(s, l, phase);
        assert ([l] + Dropping(rest, gone))[1..] == Dropping(rest, gone);
        if !failed {
          AskersRun(t, asked, rest, gone, phase);
        }
      }
    }
  }

  /*** Streams with and without them ***/

  /** The chain that the snapshot has for a stream. */
  function ChainOf(snap: Snapshot, v: View): seq<Link> {
    if v.resolved && v.name != "" && v.name in snap.chains then snap.chains[v.name] else []
  }

  ghost predicate Routed(snap: Snapshot, v: View) {
    v.chain == ChainOf(snap, v) && (!v.resolved ==> v.name == "")
  }

  lemma PreparedRouted(snap: Snapshot, v: View, m: Message)
    requires Routed(snap, v)
    ensures Routed(snap, Prepared(snap, v, m)) && Prepared(snap, v, m).resolved
  {
    hide Received;
    ReceivingKeepsRoute(v, m);
  }

  lemma {:induction false} StreamRouted(snap: Snapshot, s: State, inputs: seq<Input>)
    ensures Routed(snap, StateAfter(snap, Opened(s), inputs))
  {
    hide Prepared, Ran;
    if inputs != [] {
      var init, last := inputs[..|inputs| - 1], inputs[|inputs| - 1];
      StreamRouted(snap, s, init);
      var v := StateAfter(snap, Opened(s), init);
      PreparedRouted(snap, v, last.message);
      RunningKeepsRoute(snap, Prepared(snap, v, last.message), PhaseOf(last.message), last.env);
    }
  }

  /** What a stream comes to, without its chain and the engine's records. */
  function Plain(v: View): View {
    v.(chain := [], executions := 0, ctx := Bare(v.ctx))
  }

  /** `v` is where `w` is, except that the body may have been asked for. */
  ghost predicate Ahead(v: View, w: View, asked: bool) {
    Plain(v) == Plain(w.(ctx := AskingIf(asked, w.ctx)))
  }

  lemma AheadAgree(v: View, w: View, asked: bool)
    requires Ahead(v, w, asked)
    ensures v.resolved == w.resolved && v.name == w.name && v.bodySeen == w.bodySeen
    ensures v.ctx.endOfStream == w.ctx.endOfStream && Bare(v.ctx) == AskingIf(asked, Bare(w.ctx))
    ensures v.ctx.request == (if asked then Asking(w.ctx.request) else w.ctx.request)
  {
    assert v.ctx.request == Bare(v.ctx).request == Bare(AskingIf(asked, w.ctx)).request;
    assert v.resolved == Plain(v).resolved && v.name == Plain(v).name && v.bodySeen == Plain(v).bodySeen;
  }

  lemma AheadReplyAlike(v: View, w: View, asked: bool, phase: Phase)
    requires Ahead(v, w, asked)
    ensures ReplyTo(v, phase) == ReplyTo(w, phase)
  {
    AheadAgree(v, w, asked);
    hide Ahead;
  }

  lemma AheadReceive(v: View, w: View, asked: bool, m: Message)
    requires Ahead(v, w, asked)
    ensures Ahead(Received(v, m), Received(w, m), asked)
  {
    hide Folded;
    AheadAgree(v, w, asked);
  }

  /** Before routing nothing has been asked for. */
  lemma AheadResolve(a: Snapshot, b: Snapshot, v: View, w: View, asked: bool)
    requires SamePolicy(a, b) && Ahead(v, w, asked) && (asked ==> w.resolved)
    ensures Ahead(Resolved(a, v), Resolved(b, w), asked)
  {
    AheadAgree(v, w, asked);
    if !w.resolved && a.config.Some? && !a.config.value.unknownSource(v.ctx.request) {
      var name := a.config.value.route(v.ctx.request);
      assert name in a.chains <==> name in b.chains;
    }
  }

  /** The response arrives while the body that a dropped link asked for is missing, and nothing else objects. */
  predicate RefusesNow(w: View, asked: bool, m: Message) {
    && asked && m.ResponseHeadersMsg? && !Blocked(w) && !w.bodySeen && !w.ctx.endOfStream
    && RequestBody !in w.ctx.request.unsaved.required
  }

  lemma AheadGuard(v: View, w: View, asked: bool, m: Message)
    requires Ahead(v, w, asked) && !RefusesNow(w, asked, m)
    ensures Ahead(Guarded(v, m), Guarded(w, m), asked)
  {
    AheadAgree(v, w, asked);
  }

  lemma AheadPrepare(a: Snapshot, b: Snapshot, v: View, w: View, asked: bool, m: Message)
    requires SamePolicy(a, b) && Ahead(v, w, asked) && (asked ==> w.resolved) && !RefusesNow(w, asked, m)
    ensures Ahead(Prepared(a, v, m), Prepared(b, w, m), asked)
  {
    hide Ahead, Received, Guarded;
    AheadReceive(v, w, asked, m);
    ReceivingKeepsRoute(w, m);
    AheadResolve(a, b, Received(v, m), Received(w, m), asked);
    AheadGuard(Resolved(a, Received(v, m)), Resolved(b, Received(w, m)), asked, m);
  }

  lemma LimitsAhead(s: State, t: State, asked: bool, onTimeout: Action)
    requires Bare(s) == AskingIf(asked, Bare(t))
    ensures Bare(Overloaded(s)) == AskingIf(asked, Bare(Overloaded(t)))
    ensures Bare(TimedOut(s, onTimeout)) == AskingIf(asked, Bare(TimedOut(t, onTimeout)))
  {
    hide Upserted, WithoutName;
    assert s.request == Bare(s).request && t.request == Bare(t).request;
    assert s.request == AskingIf(asked, t).request;
  }

  /** The chain runs, unless the request is blocked or there are too many. */
  predicate ChainRuns(snap: Snapshot, w: View, env: Env) {
    !Blocked(w) && !(LimitsOf(snap, w.name).maxConcurrency > 0 && env.overloaded)
  }

  /** Only what filters see decides whether one stream is ahead of another. */
  lemma AheadWith(v: View, w: View, asked: bool, v': View, w': View, asked': bool)
    requires Ahead(v, w, asked) && Bare(v'.ctx) == AskingIf(asked', Bare(w'.ctx))
    requires v' == v.(ctx := v'.ctx, executions := v'.executions)
    requires w' == w.(ctx := w'.ctx, executions := w'.executions)
    ensures Ahead(v', w', asked')
  {
    AheadAgree(v, w, asked);
    assert Plain(v).routings == Plain(w).routings;
    assert Bare(AskingIf(asked', w'.ctx)) == AskingIf(asked', Bare(w'.ctx));
  }

  /** What running a chain makes of the state, limits included. */
  function RanState(limits: Limits, s: State, chain: seq<Link>, phase: Phase, env: Env): State {
    if limits.maxConcurrency > 0 && env.overloaded then if limits.onOverload == Allow then s else Overloaded(s)
    else
      var (t, failed) := Execute(s, chain, phase);
      if limits.timeout > 0 && failed && env.expired then TimedOut(t, limits.onTimeout) else t
  }

  lemma RanIsState(snap: Snapshot, v: View, phase: Phase, env: Env)
    ensures var v' := Ran(snap, v, phase, env);
            && v' == v.(ctx := v'.ctx, executions := v'.executions)
            && v'.ctx == if Blocked(v) || v.chain == [] then v.ctx
                         else RanState(LimitsOf(snap, v.name), v.ctx, v.chain, phase, env)
  {
    hide Execute, Overloaded, TimedOut, LimitsOf;
  }

  lemma StatesAhead(limits: Limits, s: State, t: State, c: seq<Link>, d: seq<Link>, asked: bool, asks: bool,
                    phase: Phase, env: Env)
    requires Bare(s) == AskingIf(asked, Bare(t))
    requires var (u, failed) := BareRun(Bare(t), d, phase);
             BareRun(Bare(s), c, phase) == (AskingIf(asked || asks, u), failed)
    ensures var skipped := limits.maxConcurrency > 0 && env.overloaded;
            Bare(RanState(limits, s, c, phase, env)) ==
            AskingIf(asked || (asks && !skipped), Bare(RanState(limits, t, d, phase, env)))
  {
    hide Execute, Overloaded, TimedOut, BareRun, Bare, AskingIf;
    LimitsAhead(s, t, asked, limits.onTimeout);
    ExecuteIsBare(s, c, phase);
    ExecuteIsBare(t, d, phase);
    LimitsAhead(Execute(s, c, phase).0, Execute(t, d, phase).0, asked || asks, limits.onTimeout);
  }

  /** Without links nothing happens, unless there are too many requests. */
  lemma EmptyRanState(limits: Limits, s: State, phase: Phase, env: Env)
    requires limits.maxConcurrency == 0
    ensures RanState(limits, s, [], phase, env) == s
  {
  }

  /** Chains with the same effect, apart from asking, keep the streams side by side. */
  lemma AheadRun(a: Snapshot, b: Snapshot, v: View, w: View, asked: bool, asks: bool, phase: Phase, env: Env)
    requires SamePolicy(a, b) && Ahead(v, w, asked)
    requires v.chain == [] ==> w.chain == [] && !asks
    requires w.chain == [] ==> v.chain == [] || LimitsOf(a, v.name).maxConcurrency == 0
    requires var (t, failed) := BareRun(Bare(w.ctx), w.chain, phase);
             !Blocked(w) ==> BareRun(Bare(v.ctx), v.chain, phase) == (AskingIf(asked || asks, t), failed)
    ensures Ahead(Ran(a, v, phase, env), Ran(b, w, phase, env), asked || (asks && ChainRuns(a, w, env)))
  {
    AheadAgree(v, w, asked);
    var limits := LimitsOf(a, v.name);
    assert limits == LimitsOf(b, w.name);
    hide LimitsOf, Ahead, Ran, RanState, BareRun, AskingIf, Bare;
    RanIsState(a, v, phase, env);
    RanIsState(b, w, phase, env);
    if !Blocked(w) && v.chain != [] {
      StatesAhead(limits, v.ctx, w.ctx, v.chain, w.chain, asked, asks, phase, env);
      if w.chain == [] {
        EmptyRanState(limits, w.ctx, phase, env);
      }
    }
    AheadWith(v, w, asked, Ran(a, v, phase, env), Ran(b, w, phase, env), asked || (asks && ChainRuns(a, w, env)));
  }

  /*** Policies with and without them ***/

  /** Dropped links ask, the others do not notice; a chain that is dropped altogether has no concurrency limit. */
  ghost predicate ChainAsks(snap: Snapshot, gone: Link -> bool, name: string, chain: seq<Link>) {
    && AsksOrBlind(chain, gone)
    && (Dropping(chain, gone) == [] ==> chain == [] || LimitsOf(snap, name).maxConcurrency == 0)
  }

  ghost predicate SnapshotAsks(snap: Snapshot, gone: Link -> bool) {
    forall n | n in snap.chains :: ChainAsks(snap, gone, n, snap.chains[n])
  }

  /** In the stream without them, this message gets as far as a dropped link that would ask for the body. */
  predicate AsksNow(snap: Snapshot, gone: Link -> bool, w: View, m: Message, env: Env) {
    var p := Prepared(DroppedFrom(snap, gone), w, m);
    ChainRuns(snap, p, env) && Asks(Bare(p.ctx), ChainOf(snap, p), gone, PhaseOf(m))
  }

  /** The chains of a prepared stream with and without the dropped links. */
  lemma ChainsPrepared(snap: Snapshot, gone: Link -> bool, v: View, w: View)
    requires SnapshotAsks(snap, gone) && Routed(snap, v) && Routed(DroppedFrom(snap, gone), w)
    requires v.resolved == w.resolved && v.name == w.name
    ensures w.chain == Dropping(v.chain, gone) && v.chain == ChainOf(snap, w) && ChainAsks(snap, gone, v.name, v.chain)
  {
    hide LimitsOf, Asker, Blind;
  }

  /** What a prepared chain does, with and without the links that ask. */
  lemma PreparedRun(snap: Snapshot, gone: Link -> bool, v: View, w: View, asked: bool, phase: Phase)
    requires StreamInOrder(snap, v) && Ahead(v, w, asked) && AsksOrBlind(v.chain, gone) && !Blocked(w)
    ensures var (t, failed) := BareRun(Bare(w.ctx), Dropping(v.chain, gone), phase);
            BareRun(Bare(v.ctx), v.chain, phase) ==
            (AskingIf(asked || Asks(Bare(w.ctx), v.chain, gone, phase), t), failed)
  {
    AheadAgree(v, w, asked);
    assert Bare(Bare(w.ctx)) == Bare(w.ctx) && InOrder(Bare(w.ctx), false, false);
    hide Ahead, BareRun, Dropping, Asks, AsksOrBlind, AllProper, AllSteady, LimitsOf, AskingIf, Bare;
    AskersRun(Bare(w.ctx), asked, v.chain, gone, phase);
  }

  /** Running prepared chains, with and without the links that ask. */
  lemma PreparedAhead(snap: Snapshot, gone: Link -> bool, v: View, w: View, asked: bool, phase: Phase, env: Env)
    requires SnapshotAsks(snap, gone) && StreamInOrder(snap, v) && Ahead(v, w, asked)
    requires Routed(snap, v) && Routed(DroppedFrom(snap, gone), w)
    ensures Ahead(Ran(snap, v, phase, env), Ran(DroppedFrom(snap, gone), w, phase, env),
                  asked || (Asks(Bare(w.ctx), ChainOf(snap, w), gone, phase) && ChainRuns(snap, w, env)))
  {
    assert SamePolicy(snap, DroppedFrom(snap, gone));
    hide SnapshotAsks, Ahead, Routed, Ran, Dropping, BareRun, Reaches, AsksOrBlind, LimitsOf, DroppedFrom, ChainOf,
      StreamInOrder, Bare, AskingIf, SamePolicy, ChainRuns;
    AheadAgree(v, w, asked);
    ChainsPrepared(snap, gone, v, w);
    EmptyChain(gone, Bare(w.ctx));
    if !Blocked(w) {
      PreparedRun(snap, gone, v, w, asked, phase);
    }
    var asks := Asks(Bare(w.ctx), v.chain, gone, phase);
    AheadRun(snap, DroppedFrom(snap, gone), v, w, asked, asks, phase, env);
  }

  /** One message, with and without the links that ask. */
  lemma MessageAhead(snap: Snapshot, gone: Link -> bool, v: View, w: View, asked: bool, m: Message, env: Env)
    requires SnapshotOrderly(snap) && SnapshotAsks(snap, gone) && StreamInOrder(snap, v)
    requires Routed(snap, v) && Routed(DroppedFrom(snap, gone), w)
    requires Ahead(v, w, asked) && (asked ==> w.resolved) && !RefusesNow(w, asked, m)
    ensures Ahead(Handled(snap, v, m, env), Handled(DroppedFrom(snap, gone), w, m, env),
                  asked || AsksNow(snap, gone, w, m, env))
  {
    var without := DroppedFrom(snap, gone);
    assert SamePolicy(snap, without);
    hide SnapshotOrderly, SnapshotAsks, Ahead, Routed, Prepared, RefusesNow, Ran, Asks, DroppedFrom, ChainOf,
      StreamInOrder, Bare, SamePolicy, ChainRuns;
    AheadPrepare(snap, without, v, w, asked, m);
    PreparedRouted(snap, v, m);
    PreparedRouted(without, w, m);
    PreparedInOrder(snap, v, m);
    PreparedAhead(snap, gone, Prepared(snap, v, m), Prepared(without, w, m), asked, PhaseOf(m), env);
  }

  lemma EmptyChain(gone: Link -> bool, s: State)
    ensures Dropping([], gone) == [] && !Reaches(s, [], gone)
  {
  }

  /** In the stream without them, some message of these gets as far as a dropped link that would ask. */
  predicate BodyAsked(snap: Snapshot, gone: Link -> bool, s: State, inputs: seq<Input>) {
    inputs != [] &&
    var init, last := inputs[..|inputs| - 1], inputs[|inputs| - 1];
    || BodyAsked(snap, gone, s, init)
    || AsksNow(snap, gone, StateAfter(DroppedFrom(snap, gone), Opened(s), init), last.message, last.env)
  }

  /** The last of these messages is a response to a request whose body was asked for and never came. */
  predicate RefusedLast(snap: Snapshot, gone: Link -> bool, s: State, inputs: seq<Input>)
    requires inputs != []
  {
    var init, last := inputs[..|inputs| - 1], inputs[|inputs| - 1];
    RefusesNow(StateAfter(DroppedFrom(snap, gone), Opened(s), init), BodyAsked(snap, gone, s, init), last.message)
  }

  /** Some response arrives that way, judged by the stream without the dropped links. */
  predicate Refused(snap: Snapshot, gone: Link -> bool, s: State, inputs: seq<Input>) {
    inputs != [] && (Refused(snap, gone, s, inputs[..|inputs| - 1]) || RefusedLast(snap, gone, s, inputs))
  }

  /** Until a response is refused, asking for the body is all that happens. */
  lemma {:induction false} AheadUntilRefused(snap: Snapshot, gone: Link -> bool, s: State, inputs: seq<Input>)
    requires SnapshotOrderly(snap) && SnapshotAsks(snap, gone) && s.request.verdict == QUIET
    requires !Refused(snap, gone, s, inputs)
    ensures Ahead(StateAfter(snap, Opened(s), inputs), StateAfter(DroppedFrom(snap, gone), Opened(s), inputs),
                  BodyAsked(snap, gone, s, inputs))
    ensures inputs != [] ==> StateAfter(DroppedFrom(snap, gone), Opened(s), inputs).resolved
  {
    if inputs != [] {
      hide SnapshotOrderly, SnapshotAsks, Ahead, Handled, AsksNow, RefusesNow, Routed, DroppedFrom, StreamInOrder;
      var init, last := inputs[..|inputs| - 1], inputs[|inputs| - 1];
      AheadUntilRefused(snap, gone, s, init);
      StreamStaysInOrder(snap, s, init);
      StreamRouted(snap, s, init);
      StreamRouted(DroppedFrom(snap, gone), s, init);
      var v, w := StateAfter(snap, Opened(s), init), StateAfter(DroppedFrom(snap, gone), Opened(s), init);
      MessageAhead(snap, gone, v, w, BodyAsked(snap, gone, s, init), last.message, last.env);
      HandlingRoutes(DroppedFrom(snap, gone), w, last.message, last.env);
    }
  }

  /** Without a refusal, audited links that ask for the body might as well not be in the policy. */
  lemma {:induction false} AskersAreInvisible(snap: Snapshot, gone: Link -> bool, s: State, inputs: seq<Input>)
    requires SnapshotOrderly(snap) && SnapshotAsks(snap, gone) && s.request.verdict == QUIET
    requires !Refused(snap, gone, s, inputs)
    ensures Replies(snap, Opened(s), inputs) == Replies(DroppedFrom(snap, gone), Opened(s), inputs)
  {
    hide SnapshotOrderly, SnapshotAsks, StateAfter, ReplyTo, Ahead, DroppedFrom, RefusedLast;
    if inputs != [] {
      AskersAreInvisible(snap, gone, s, inputs[..|inputs| - 1]);
      AheadUntilRefused(snap, gone, s, inputs);
      AheadReplyAlike(
        StateAfter(snap, Opened(s), inputs), StateAfter(DroppedFrom(snap, gone), Opened(s), inputs),
        BodyAsked(snap, gone, s, inputs), PhaseOf(inputs[|inputs| - 1].message));
    }
  }

  /*** A refusal shows ***/

  /** On response headers the link neither fails nor answers 500, unless audit mode takes that back. */
  ghost predicate NoError(l: Link) {
    forall m: Moment, r: Request | m.phase == ResponseHeaders && Runs(l.filter, m.phase) && r.verdict == QUIET ::
      var o := l.filter.run(m, r);
      (l.audited && Suppressed(o)) || (!o.failed && (o.request.verdict.blocked ==> o.request.verdict.status != 500))
  }

  predicate Fine(s: State) {
    s.request.verdict == QUIET || (s.request.verdict.blocked && s.request.verdict.status != 500)
  }

  lemma LinkIsFine(s: State, l: Link)
    requires s.request.verdict == QUIET && Proper(l) && NoError(l)
    ensures var (t, failed) := BareLink(s, l, ResponseHeaders); Fine(t) && !failed
  {
    assert ProperAt(l, Moment(ResponseHeaders, s.endOfStream));
  }

  lemma {:induction false} ChainIsFine(s: State, chain: seq<Link>)
    requires Fine(s) && forall l | l in chain :: Proper(l) && NoError(l)
    ensures var (t, failed) := BareRun(s, chain, ResponseHeaders); Fine(t) && !failed
    decreases |chain|
  {
    hide BareLink, Proper, NoError;
    if chain != [] && !s.request.verdict.blocked {
      assert chain[0] in chain;
      LinkIsFine(s, chain[0]);
      ChainIsFine(BareLink(s, chain[0], ResponseHeaders).0, chain[1..]);
    }
  }

  /** The engine refuses the response of the stream that is ahead. */
  lemma AheadIsRefused(snap: Snapshot, v: View, w: View, asked: bool, m: Message, env: Env)
    requires Ahead(v, w, asked) && RefusesNow(w, asked, m) && w.resolved
    ensures var reply := ReplyTo(Handled(snap, v, m, env), ResponseHeaders); reply.Immediate? && reply.status == 500
  {
    hide Received, Built;
    AheadAgree(v, w, asked);
    hide Ahead;
    ReceivingKeepsRoute(v, m);
  }

  /** The other one gets no 500. */
  lemma OtherIsFine(snap: Snapshot, w: View, asked: bool, m: Message, env: Env)
    requires RefusesNow(w, asked, m) && w.resolved && w.ctx.request.verdict == QUIET
    requires forall l | l in w.chain :: Proper(l) && NoError(l)
    ensures var reply := ReplyTo(Handled(snap, w, m, env), ResponseHeaders); reply.Immediate? ==> reply.status != 500
  {
    hide Received, Built, Execute, BareRun, Proper, NoError, LimitsOf, Upserted, WithoutName;
    ReceivingKeepsRoute(w, m);
    var s := Received(w, m).ctx;
    ExecuteIsBare(s, w.chain, ResponseHeaders);
    ChainIsFine(Bare(s), w.chain);
  }

  ghost predicate SnapshotFine(snap: Snapshot, gone: Link -> bool) {
    forall n | n in snap.chains :: forall l | l in snap.chains[n] && !gone(l) :: NoError(l)
  }

  lemma {:induction false} DroppingLeaves(chain: seq<Link>, gone: Link -> bool)
    ensures forall l | l in Dropping(chain, gone) :: l in chain && !gone(l)
  {
    if chain != [] {
      DroppingLeaves(chain[1..], gone);
    }
  }

  /** The links that are left in a stream without the dropped ones. */
  lemma ChainLeft(snap: Snapshot, gone: Link -> bool, w: View)
    requires SnapshotOrderly(snap) && SnapshotFine(snap, gone) && Routed(DroppedFrom(snap, gone), w)
    ensures forall l | l in w.chain :: Proper(l) && NoError(l)
  {
    hide Proper, NoError, LimitsOf, AllSteady, Dropping;
    if w.chain != [] {
      DroppingLeaves(snap.chains[w.name], gone);
      assert ChainOrderly(snap, w.name, snap.chains[w.name]);
    }
  }

  /** The last of these messages is refused, and not without the dropped links. */
  lemma RefusalShows(snap: Snapshot, gone: Link -> bool, s: State, inputs: seq<Input>)
    requires SnapshotOrderly(snap) && SnapshotAsks(snap, gone) && SnapshotFine(snap, gone) && s.request.verdict == QUIET
    requires inputs != [] && !Refused(snap, gone, s, inputs[..|inputs| - 1]) && RefusedLast(snap, gone, s, inputs)
    ensures var reply := ReplyTo(StateAfter(snap, Opened(s), inputs), ResponseHeaders);
            && inputs[|inputs| - 1].message.ResponseHeadersMsg? && reply.Immediate? && reply.status == 500
            && reply != ReplyTo(StateAfter(DroppedFrom(snap, gone), Opened(s), inputs), ResponseHeaders)
  {
    var init, last := inputs[..|inputs| - 1], inputs[|inputs| - 1];
    var without := DroppedFrom(snap, gone);
    var v, w := StateAfter(snap, Opened(s), init), StateAfter(without, Opened(s), init);
    var asked := BodyAsked(snap, gone, s, init);
    assert init != [] && last.message.ResponseHeadersMsg?;
    AheadUntilRefused(snap, gone, s, init);
    AheadAgree(v, w, asked);
    StreamStaysInOrder(snap, s, init);
    assert w.ctx.request.verdict == QUIET;
    StreamRouted(without, s, init);
    ChainLeft(snap, gone, w);
    hide *;
    AheadIsRefused(snap, v, w, asked, last.message, last.env);
    OtherIsFine(without, w, asked, last.message, last.env);
    LastState(snap, Opened(s), inputs);
    LastState(without, Opened(s), inputs);
  }

  /**
   Exactly when audit mode shows: streams with and without audited links that ask for the body give the same
   replies if and only if no response arrives while a body asked for is missing.
   */
  lemma {:induction false} AskersShowIffRefused(snap: Snapshot, gone: Link -> bool, s: State, inputs: seq<Input>)
    requires SnapshotOrderly(snap) && SnapshotAsks(snap, gone) && SnapshotFine(snap, gone) && s.request.verdict == QUIET
    ensures Replies(snap, Opened(s), inputs) == Replies(DroppedFrom(snap, gone), Opened(s), inputs) <==>
            !Refused(snap, gone, s, inputs)
  {
    hide SnapshotOrderly, SnapshotAsks, SnapshotFine, StateAfter, ReplyTo, DroppedFrom, RefusedLast, Replies;
    if !Refused(snap, gone, s, inputs) {
      AskersAreInvisible(snap, gone, s, inputs);
    } else {
      LastState(snap, Opened(s), inputs);
      LastState(DroppedFrom(snap, gone), Opened(s), inputs);
      if Refused(snap, gone, s, inputs[..|inputs| - 1]) {
        var init := inputs[..|inputs| - 1];
        AskersShowIffRefused(snap, gone, s, init);
        assert Replies(snap, Opened(s), inputs)[..|init|] == Replies(snap, Opened(s), init);
        assert Replies(DroppedFrom(snap, gone), Opened(s), inputs)[..|init|] ==
               Replies(DroppedFrom(snap, gone), Opened(s), init);
      } else {
        RefusalShows(snap, gone, s, inputs);
        var n := |inputs| - 1;
        assert Replies(snap, Opened(s), inputs)[n] != Replies(DroppedFrom(snap, gone), Opened(s), inputs)[n];
      }
    }
  }

  /*** One audited firewall ***/

  const ONE_CONFIG := Config((r: Request) => "chain", (r: Request) => false, map[])

  /** A policy with one chain for every request and no limits. */
  function OneChain(chain: seq<Link>): Snapshot {
    Snapshot(Some(ONE_CONFIG), map["chain" := chain])
  }

  predicate SawHeaders(inputs: seq<Input>) {
    exists i | 0 <= i < |inputs| :: inputs[i].message.RequestHeadersMsg?
  }

  /** The request has a body, which has not come yet. */
  predicate Awaited(inputs: seq<Input>) {
    SawHeaders(inputs) && !LastEndOfStream(inputs) && !SawBody(inputs)
  }

  /** The response comes while the body is awaited. */
  predicate Withheld(inputs: seq<Input>) {
    exists i | 0 <= i < |inputs| :: inputs[i].message.ResponseHeadersMsg? && Awaited(inputs[..i])
  }

  lemma WithheldStep(inputs: seq<Input>)
    requires inputs != []
    ensures var init, last := inputs[..|inputs| - 1], inputs[|inputs| - 1];
            Withheld(inputs) <==> Withheld(init) || (last.message.ResponseHeadersMsg? && Awaited(init))
  {
    hide Awaited;
    var init := inputs[..|inputs| - 1];
    assert forall i | 0 <= i < |init| :: inputs[i] == init[i] && inputs[..i] == init[..i];
    if Withheld(init) {
      var i :| 0 <= i < |init| && init[i].message.ResponseHeadersMsg? && Awaited(init[..i]);
      assert inputs[i].message.ResponseHeadersMsg? && Awaited(inputs[..i]);
    }
  }

  /** Headers of a request with a body came. */
  predicate SawBodyAhead(inputs: seq<Input>) {
    exists i | 0 <= i < |inputs| :: inputs[i].message.RequestHeadersMsg? && !inputs[i].message.endOfStream
  }

  lemma BodyAheadStep(inputs: seq<Input>)
    requires inputs != []
    ensures var init, last := inputs[..|inputs| - 1], inputs[|inputs| - 1].message;
            SawBodyAhead(inputs) <==> SawBodyAhead(init) || (last.RequestHeadersMsg? && !last.endOfStream)
  {
    var init, last := inputs[..|inputs| - 1], inputs[|inputs| - 1];
    assert inputs == init + [last];
  }

  lemma {:induction false} AwaitedIsAhead(inputs: seq<Input>)
    requires !LastEndOfStream(inputs)
    ensures SawHeaders(inputs) <==> SawBodyAhead(inputs)
  {
    if inputs != [] {
      var init, last := inputs[..|inputs| - 1], inputs[|inputs| - 1];
      assert forall i | 0 <= i < |init| :: inputs[i] == init[i];
      if !last.message.RequestHeadersMsg? {
        AwaitedIsAhead(init);
        BodyAheadStep(inputs);
      } else {
        assert inputs[|inputs| - 1].message.RequestHeadersMsg? && !inputs[|inputs| - 1].message.endOfStream;
      }
    }
  }

  /** Without filters nothing is refused and no body is asked for. */
  ghost predicate Untouched(v: View, s: State) {
    && !Blocked(v) && v.ctx.request.unsaved.required == s.request.unsaved.required && v.chain == []
    && (v.resolved ==> v.name == "chain")
  }

  lemma EmptyMessage(s: State, v: View, m: Message, env: Env)
    requires Untouched(v, s) && RequestBody !in s.request.unsaved.required
    ensures Prepared(OneChain([]), v, m) == Handled(OneChain([]), v, m, env)
    ensures Untouched(Handled(OneChain([]), v, m, env), s) && Handled(OneChain([]), v, m, env).resolved
  {
    hide Received;
    ReceivingKeepsRoute(v, m);
  }

  lemma {:induction false} EmptyStream(s: State, inputs: seq<Input>)
    requires s.request.verdict == QUIET && RequestBody !in s.request.unsaved.required
    ensures Untouched(StateAfter(OneChain([]), Opened(s), inputs), s)
  {
    hide Handled, OneChain;
    if inputs != [] {
      var init, last := inputs[..|inputs| - 1], inputs[|inputs| - 1];
      EmptyStream(s, init);
      EmptyMessage(s, StateAfter(OneChain([]), Opened(s), init), last.message, last.env);
    }
  }

  function Everything(l: Link): bool {
    true
  }

  lemma DroppedIsEmpty(l: Link)
    ensures DroppedFrom(OneChain([l]), Everything) == OneChain([])
  {
    assert [l][1..] == [] && Dropping([l][1..], Everything) == [];
    assert Dropping([l], Everything) == [];
  }

  lemma OneAsksNow(s: State, l: Link, v: View, m: Message, env: Env)
    requires Untouched(v, s) && RequestBody !in s.request.unsaved.required
    ensures AsksNow(OneChain([l]), Everything, v, m, env) <==> m.RequestHeadersMsg? && !m.endOfStream
  {
    DroppedIsEmpty(l);
    EmptyMessage(s, v, m, env);
    var p := Prepared(OneChain([]), v, m);
    assert m.RequestHeadersMsg? ==> p.ctx.endOfStream == m.endOfStream by {
      HandlingRemembers(OneChain([]), v, m, env);
    }
    hide Prepared, Handled;
    assert ChainOf(OneChain([l]), p) == [l];
    assert Reaches(Bare(p.ctx), [l], Everything);
  }

  lemma {:induction false} OneBodyAsked(s: State, l: Link, inputs: seq<Input>)
    requires s.request.verdict == QUIET && RequestBody !in s.request.unsaved.required
    ensures BodyAsked(OneChain([l]), Everything, s, inputs) <==> SawBodyAhead(inputs)
  {
    if inputs != [] {
      hide AsksNow, Untouched, OneChain, StateAfter, DroppedFrom, SawBodyAhead;
      var init, last := inputs[..|inputs| - 1], inputs[|inputs| - 1];
      OneBodyAsked(s, l, init);
      DroppedIsEmpty(l);
      EmptyStream(s, init);
      OneAsksNow(s, l, StateAfter(OneChain([]), Opened(s), init), last.message, last.env);
      BodyAheadStep(inputs);
    }
  }

  lemma {:induction false} OneRefused(s: State, l: Link, inputs: seq<Input>)
    requires s.request.verdict == QUIET && RequestBody !in s.request.unsaved.required
    ensures Refused(OneChain([l]), Everything, s, inputs) <==> Withheld(inputs)
  {
    if inputs != [] {
      hide OneChain, StateAfter, DroppedFrom, Withheld, SawHeaders, SawBody, LastEndOfStream, SawBodyAhead, BodyAsked;
      var init := inputs[..|inputs| - 1];
      OneRefused(s, l, init);
      WithheldStep(inputs);
      DroppedIsEmpty(l);
      EmptyStream(s, init);
      StreamRemembers(OneChain([]), s, init);
      OneBodyAsked(s, l, init);
      if !LastEndOfStream(init) {
        AwaitedIsAhead(init);
      }
    } else {
      assert !Withheld([]);
    }
  }

  /**
   For one audited firewall the condition is on the messages alone: it changes a reply if and only if a response
   comes after headers that announced a body, and before that body.
   */
  lemma AuditedFirewallShowsIffWithheld(inspect: (Moment, Request) -> Outcome, s: State, inputs: seq<Input>)
    requires Watches(inspect) && s.request.verdict == QUIET && RequestBody !in s.request.unsaved.required
    ensures Replies(OneChain([Link(Firewall(true, inspect), true)]), Opened(s), inputs) ==
            Replies(OneChain([]), Opened(s), inputs)
       <==> !Withheld(inputs)
  {
    var l := Link(Firewall(true, inspect), true);
    FirewallIsAsker(inspect);
    AskerIsOrderly(l);
    hide Firewall, Watches, Asker, Proper, Steady, Replies, Refused, Withheld, NoError, Blind, Dropping;
    DroppedIsEmpty(l);
    OneRefused(s, l, inputs);
    AskersShowIffRefused(OneChain([l]), Everything, s, inputs);
  }

  /** A request with a body, and its response: the body never reached the engine. */
  function BodyWithheld(request: seq<Header<string, string>>, response: seq<Header<string, string>>): seq<Input> {
    [Input(RequestHeadersMsg(request, false), Env(false, false)),
     Input(ResponseHeadersMsg(response), Env(false, false))]
  }

  lemma TwoReplies(snap: Snapshot, v: View, inputs: seq<Input>)
    requires |inputs| == 2
    ensures var v1 := Handled(snap, v, inputs[0].message, inputs[0].env);
            var v2 := Handled(snap, v1, inputs[1].message, inputs[1].env);
            Replies(snap, v, inputs) ==
            [ReplyTo(v1, PhaseOf(inputs[0].message)), ReplyTo(v2, PhaseOf(inputs[1].message))]
  {
    hide Handled, ReplyTo;
    assert inputs[..1] == [inputs[0]] && inputs[..1][..0] == [];
    assert StateAfter(snap, v, inputs[..1]) == Handled(snap, v, inputs[0].message, inputs[0].env);
    assert Replies(snap, v, inputs[..1][..0]) == [];
  }

  /** After the headers of a request with a body, an audited firewall has let it through and asked for the body. */
  lemma FirewallAsks(inspect: (Moment, Request) -> Outcome, s: State, request: seq<Header<string, string>>)
    requires s.request.verdict == QUIET
    ensures var snap := OneChain([Link(Firewall(true, inspect), true)]);
            var v := Handled(snap, Opened(s), RequestHeadersMsg(request, false), Env(false, false));
            && v.resolved && !Blocked(v) && Uninspected(v) && RequestBody in v.ctx.request.unsaved.required
  {
    hide Received, Execute;
    var l := Link(Firewall(true, inspect), true);
    var m := RequestHeadersMsg(request, false);
    ReceivingKeepsRoute(Opened(s), m);
    var v := Received(Opened(s), m);
    OneLink(v.ctx, l, RequestHeaders);
    assert Moment(RequestHeaders, v.ctx.endOfStream) == BODY_AHEAD;
    assert OutcomeOf(l.filter, v.ctx, RequestHeaders) == Outcome(Asking(v.ctx.request), false);
  }

  lemma FirewallRefuses(
    inspect: (Moment, Request) -> Outcome, s: State, request: seq<Header<string, string>>,
    response: seq<Header<string, string>>)
    requires s.request.verdict == QUIET
    ensures var snap := OneChain([Link(Firewall(true, inspect), true)]);
            var replies := Replies(snap, Opened(s), BodyWithheld(request, response));
            replies[0].Proceed? && replies[1].Immediate? && replies[1].status == 500
  {
    hide Received, Execute, Firewall, Built;
    var m1, m2 := RequestHeadersMsg(request, false), ResponseHeadersMsg(response);
    var snap := OneChain([Link(Firewall(true, inspect), true)]);
    FirewallAsks(inspect, s, request);
    TwoReplies(snap, Opened(s), BodyWithheld(request, response));
    ReceivingKeepsRoute(Handled(snap, Opened(s), m1, Env(false, false)), m2);
  }

  /**
   Audit mode does change an outcome here: the audited firewall denies nothing and is proper, yet a body it asked
   for and never saw makes the engine refuse the response. Without the filter the response goes through.
   */
  lemma AuditedFirewallStillRefuses(
    inspect: (Moment, Request) -> Outcome, s: State, request: seq<Header<string, string>>,
    response: seq<Header<string, string>>)
    requires s.request.verdict == QUIET && RequestBody !in s.request.unsaved.required
    ensures var snap := OneChain([Link(Firewall(true, inspect), true)]);
            var replies := Replies(snap, Opened(s), BodyWithheld(request, response));
            replies[0].Proceed? && replies[1].Immediate? && replies[1].status == 500
    ensures var replies := Replies(OneChain([]), Opened(s), BodyWithheld(request, response));
            replies[0].Proceed? && replies[1].Proceed?
  {
    hide Replies, OneChain;
    FirewallRefuses(inspect, s, request, response);
    NothingRefuses(s, request, response);
  }

  lemma NothingRefuses(s: State, request: seq<Header<string, string>>, response: seq<Header<string, string>>)
    requires s.request.verdict == QUIET && RequestBody !in s.request.unsaved.required
    ensures var replies := Replies(OneChain([]), Opened(s), BodyWithheld(request, response));
            replies[0].Proceed? && replies[1].Proceed?
  {
    hide Received, Built;
    var inputs := BodyWithheld(request, response);
    TwoReplies(OneChain([]), Opened(s), inputs);
    var m1, m2 := RequestHeadersMsg(request, false), ResponseHeadersMsg(response);
    EmptyMessage(s, Opened(s), m1, Env(false, false));
    EmptyMessage(s, Handled(OneChain([]), Opened(s), m1, Env(false, false)), m2, Env(false, false));
  }
}
