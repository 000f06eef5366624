/**
 Why `AuditedStreams` asks filters to be steady in chains that are let through when too slow
 (internal/grpc/handlers.go, internal/engine/executor.go): what such a chain hands on can be audited without a trace
 exactly if its filters are steady, and a concrete policy shows what else happens.
 */
module SteadyFilters {
  import opened Basics
  import opened HeaderOverlay
  import opened ChainExecution
  import opened ExtProcStream
  import opened AuditExactness
  import opened AuditedStreams

  /** Answers the request and fails after that. */
  const HASTY := Filter(
    Some([RequestHeaders]), (m: Moment, r: Request) => Outcome(r.(verdict := Verdict(true, true, 204, "")), true))

  const BROKEN := Filter(Some([RequestBody]), (m: Moment, r: Request) => Outcome(r, true))

  /** Denies in one phase, as a deny filter does: the block is set and the rest of the verdict stays. */
  function Strict(phase: Phase): Filter {
    Filter(
      Some([phase]),
      (m: Moment, r: Request) =>
        Outcome(r.(verdict := r.verdict.(blocked := true, status := 403, body := "Forbidden")), false))
  }

  /** What is left of an answer when the chain is let through. */
  const MARKED := Verdict(false, true, 0, "")

  /*** The exact condition ***/

  /** What a link hands on if a chain that fails is let through as too slow. */
  function HandedOn(s: State, l: Link, phase: Phase): State {
    var (t, failed) := Execute(s, [l], phase);
    if failed then TimedOut(t, Allow) else t
  }

  /** No chain of proper links leaves a trace of its audited denials and failures. */
  ghost predicate Auditable(s: State) {
    forall chain: seq<Link>, phase: Phase | AllProper(chain) :: NoTrace(s, chain, phase)
  }

  lemma BrokenIsProper()
    ensures AllProper([Link(BROKEN, true)])
  {
  }

  lemma BlockedHasNoTrace(s: State, chain: seq<Link>, phase: Phase)
    requires s.request.verdict.blocked
    ensures NoTrace(s, chain, phase)
  {
    hide Enforced;
  }

  /** A request that is blocked or carries no verdict can be audited; one that is marked as answered cannot. */
  lemma AuditableIffUnmarked(s: State)
    requires s.request.verdict.blocked || s.request.verdict in {QUIET, MARKED}
    ensures Auditable(s) <==> s.request.verdict != MARKED
  {
    hide NoTrace, AllProper;
    if s.request.verdict == MARKED {
      var chain := [Link(BROKEN, true)];
      BrokenIsProper();
      assert !NoTrace(s, chain, RequestBody) by {
        BrokenLeavesTrace(s);
      }
    } else {
      forall chain: seq<Link>, phase: Phase | AllProper(chain) ensures NoTrace(s, chain, phase) {
        if s.request.verdict.blocked {
          BlockedHasNoTrace(s, chain, phase);
        } else {
          ProperHasNoTrace(s, chain, phase);
        }
      }
    }
  }

  lemma ProperHasNoTrace(s: State, chain: seq<Link>, phase: Phase)
    requires s.request.verdict == QUIET && AllProper(chain)
    ensures NoTrace(s, chain, phase)
  {
    forall l | l in chain ensures ProperAt(l, Moment(phase, s.endOfStream)) {
      assert Proper(l);
    }
    hide ProperAt, AllProper;
    AuditNoninterference(s, chain, phase);
  }

  lemma BrokenLeavesTrace(s: State)
    requires s.request.verdict == MARKED
    ensures !NoTrace(s, [Link(BROKEN, true)], RequestBody)
  {
    OneLink(s, Link(BROKEN, true), RequestBody);
    OneEnforced(s, Link(BROKEN, true), RequestBody);
    hide Execute, Enforced;
  }

  /** What the link hands on carries a mark exactly if it fails after it answered. */
  lemma HandedOnIsMarked(s: State, l: Link, phase: Phase)
    requires s.request.verdict == QUIET && ProperAt(l, Moment(phase, s.endOfStream))
    ensures var v := HandedOn(s, l, phase).request.verdict;
            && (v.blocked || v in {QUIET, MARKED})
            && (v == MARKED <==> var o := OutcomeOf(l.filter, s, phase);
                                 Runs(l.filter, phase) && !l.audited && o.failed && o.request.verdict.answered)
  {
    OneLink(s, l, phase);
    hide Execute;
  }

  /**
   Exactly when a timeout that is let through keeps audit mode without a trace: whatever a proper link hands on can
   be audited, by every chain of proper links, if and only if the link is steady.
   */
  lemma HandedOnIsAuditableIffSteady(l: Link, m: Moment)
    requires ProperAt(l, m)
    ensures (forall s: State | s.endOfStream == m.endOfStream && s.request.verdict == QUIET ::
               Auditable(HandedOn(s, l, m.phase)))
       <==> SteadyAt(l, m)
  {
    hide Auditable, HandedOn, ProperAt;
    forall s: State | s.endOfStream == m.endOfStream && s.request.verdict == QUIET
      ensures Auditable(HandedOn(s, l, m.phase)) <==>
              !(Runs(l.filter, m.phase) && !l.audited && l.filter.run(m, s.request).failed &&
                l.filter.run(m, s.request).request.verdict.answered)
    {
      HandedOnIsMarked(s, l, m.phase);
      AuditableIffUnmarked(HandedOn(s, l, m.phase));
    }
    if !SteadyAt(l, m) {
      var r: Request :| r.verdict == QUIET && l.filter.run(m, r).failed && l.filter.run(m, r).request.verdict.answered;
      assert !Auditable(HandedOn(Fresh(m, r), l, m.phase));
    }
  }

  /*** A concrete policy ***/

  /** One chain for every request, let through when it is too slow. */
  function Forgiving(chain: seq<Link>): Snapshot {
    Snapshot(Some(Config((r: Request) => "chain", (r: Request) => false, map["chain" := Limits(0, Deny, 1, Allow)])),
             map["chain" := chain])
  }

  const LATE := Env(false, true)

  ghost predicate OnChain(v: View, chain: seq<Link>) {
    !Blocked(v) && if v.resolved then v.chain == chain && v.name == "chain" else v.chain == []
  }

  /** One message of such a stream: the verdict is that of the links chosen, or what is left of it if they fail. */
  lemma ForgivenRun(chain: seq<Link>, v: View, m: Message, chosen: seq<Link>)
    requires chain != [] && OnChain(v, chain) && !m.ResponseHeadersMsg?
    ensures var snap := Forgiving(chain);
            var p := Prepared(snap, v, m);
            var (t, failed) := BareRun(Bare(p.ctx), chosen, PhaseOf(m));
            var w := RanWith(snap, p, chosen, PhaseOf(m), LATE);
            && p.ctx.request.verdict == v.ctx.request.verdict && p.chain == chain
            && w.resolved && w.chain == chain && w.name == "chain"
            && w.ctx.request.verdict == (if failed then t.request.verdict.(blocked := false, status := 0, body := "")
                                         else t.request.verdict)
  {
    hide Received, Execute, BareRun;
    ReceivingKeepsRoute(v, m);
    var p := Prepared(Forgiving(chain), v, m);
    ExecuteIsBare(p.ctx, chosen, PhaseOf(m));
  }

  const HASTY_CHAIN := [Link(HASTY, false), Link(BROKEN, true), Link(Strict(RequestTrailers), true)]

  /** A link that does not run in this phase. */
  lemma IdleLink(s: State, chain: seq<Link>, phase: Phase)
    requires s == Bare(s) && chain != [] && !Runs(chain[0].filter, phase)
    ensures BareRun(s, chain, phase) == BareRun(s, chain[1..], phase)
  {
    if s.request.verdict.blocked {
    } else {
      assert BareLink(s, chain[0], phase) == (s, false);
    }
  }

  /** On headers the chain fails after it answered. */
  lemma HastyOnHeaders(s: State)
    requires s.request.verdict == QUIET
    ensures var (t, failed) := BareRun(s, HASTY_CHAIN, RequestHeaders);
            failed && t.request.verdict.(blocked := false, status := 0, body := "") == MARKED
  {
  }

  /** The audited failure on the body clears the mark; without the broken filter it stays. */
  lemma HastyOnBody(s: State)
    requires s == Bare(s) && s.request.verdict == MARKED
    ensures var (t, failed) := BareRun(s, HASTY_CHAIN, RequestBody); !failed && t.request.verdict == QUIET
    ensures BareRun(s, [HASTY_CHAIN[0], HASTY_CHAIN[2]], RequestBody) == (s, false)
  {
    var a, b, c := HASTY_CHAIN[0], HASTY_CHAIN[1], HASTY_CHAIN[2];
    assert HASTY_CHAIN[1..] == [b, c] && [b, c][1..] == [c] && [c][1..] == [] && [a, c][1..] == [c];
    IdleLink(s, HASTY_CHAIN, RequestBody);
    IdleLink(s, [a, c], RequestBody);
    IdleLink(s, [c], RequestBody);
    var (t, failed) := BareLink(s, b, RequestBody);
    assert t == Bare(t) && !failed && t.request.verdict == QUIET;
    IdleLink(t, [c], RequestBody);
    assert BareRun(t, [], RequestBody) == (t, false);
  }

  /** On trailers the audited denial is taken back, unless the request is marked as answered. */
  lemma HastyOnTrailers(s: State)
    requires s == Bare(s) && !s.request.verdict.blocked && s.request.verdict.(answered := false) == QUIET
    ensures var (t, failed) := BareRun(s, HASTY_CHAIN, RequestTrailers);
            && !failed
            && t.request.verdict == if s.request.verdict.answered then Verdict(true, true, 403, "Forbidden") else QUIET
  {
    var b, c := HASTY_CHAIN[1], HASTY_CHAIN[2];
    assert HASTY_CHAIN[1..] == [b, c] && [b, c][1..] == [c] && [c][1..] == [];
    IdleLink(s, HASTY_CHAIN, RequestTrailers);
    IdleLink(s, [b, c], RequestTrailers);
    var (t, failed) := BareLink(s, c, RequestTrailers);
    assert BareRun(t, [], RequestTrailers) == (t, false);
  }

  /** What is recorded of it: the failure on the body, and nothing on trailers once the request is marked. */
  lemma HastyRecords(s: State)
    requires s.request.verdict == MARKED
    ensures Enforced(s, HASTY_CHAIN, RequestBody) == [HASTY_CHAIN[0], HASTY_CHAIN[2]]
    ensures Enforced(s, HASTY_CHAIN, RequestTrailers) == HASTY_CHAIN
  {
    var a, b, c := Placed(0, HASTY_CHAIN[0]), Placed(1, HASTY_CHAIN[1]), Placed(2, HASTY_CHAIN[2]);
    PlacedAt(HASTY_CHAIN, 0);
    var all := PlacedFrom(HASTY_CHAIN, 0);
    assert all == [a, b, c] && all[1..] == [b, c] && [b, c][1..] == [c] && [c][1..] == [];
    var t := RunLink(s, b, RequestBody).0;
    var hit := HitOf(1, OutcomeOf(BROKEN, s, RequestBody));
    assert Recorded(t, [], RequestBody) == [];
    assert Recorded(t, [c], RequestBody) == [];
    assert Recorded(s, [b, c], RequestBody) == [hit];
    assert Recorded(s, all, RequestBody) == [hit];
    var u := RunLink(s, c, RequestTrailers).0;
    assert Recorded(u, [], RequestTrailers) == [];
    assert Recorded(s, [c], RequestTrailers) == [];
    assert Recorded(s, [b, c], RequestTrailers) == [];
    assert Recorded(s, all, RequestTrailers) == [];
    hide Recorded;
    WithoutNothing(all);
    WithoutNothing([c]);
    assert Without([b, c], [hit]) == Without([c], []) == [c];
    assert Without(all, [hit]) == [a] + Without([b, c], [hit]) == [a, c];
  }

  lemma HastyRecordsNothingElse(s: State)
    requires s.request.verdict == QUIET
    ensures Enforced(s, HASTY_CHAIN, RequestHeaders) == HASTY_CHAIN
  {
    var all := PlacedFrom(HASTY_CHAIN, 0);
    PlacedAt(HASTY_CHAIN, 0);
    assert Recorded(s, all, RequestHeaders) == [];
    WithoutNothing(all);
  }

  lemma HastyIsProper()
    ensures AllProper(HASTY_CHAIN)
  {
  }

  /** The headers leave the request marked, whether or not recorded links are left out. */
  lemma AfterHeaders(s: State, m: Message)
    requires s.request.verdict == QUIET && m.RequestHeadersMsg?
    ensures var v := Handled(Forgiving(HASTY_CHAIN), Opened(s), m, LATE);
            && OnChain(v, HASTY_CHAIN) && v.resolved && v.ctx.request.verdict == MARKED
            && HandledUnrecorded(Forgiving(HASTY_CHAIN), Opened(s), m, LATE) == v
  {
    hide Prepared, RanWith, BareRun, Enforced, Forgiving;
    ForgivenRun(HASTY_CHAIN, Opened(s), m, HASTY_CHAIN);
    var p := Prepared(Forgiving(HASTY_CHAIN), Opened(s), m);
    HastyOnHeaders(Bare(p.ctx));
    HastyRecordsNothingElse(p.ctx);
  }

  /** The body, in the stream that runs the whole chain and in the one that leaves out what is recorded. */
  lemma AfterBody(v: View, m: Message)
    requires OnChain(v, HASTY_CHAIN) && v.resolved && v.ctx.request.verdict == MARKED && m.RequestBodyMsg?
    ensures var w := Handled(Forgiving(HASTY_CHAIN), v, m, LATE);
            OnChain(w, HASTY_CHAIN) && w.resolved && w.ctx.request.verdict == QUIET
    ensures var w := HandledUnrecorded(Forgiving(HASTY_CHAIN), v, m, LATE);
            OnChain(w, HASTY_CHAIN) && w.resolved && w.ctx.request.verdict == MARKED
  {
    hide Prepared, RanWith, BareRun, Enforced, Forgiving;
    var chosen := [HASTY_CHAIN[0], HASTY_CHAIN[2]];
    ForgivenRun(HASTY_CHAIN, v, m, HASTY_CHAIN);
    ForgivenRun(HASTY_CHAIN, v, m, chosen);
    var p := Prepared(Forgiving(HASTY_CHAIN), v, m);
    HastyOnBody(Bare(p.ctx));
    HastyRecords(p.ctx);
  }

  /** The trailers: denied if and only if the request is still marked. */
  lemma AfterTrailers(v: View, m: Message)
    requires OnChain(v, HASTY_CHAIN) && v.resolved && v.ctx.request.verdict in {QUIET, MARKED} && m.RequestTrailersMsg?
    ensures var w := Handled(Forgiving(HASTY_CHAIN), v, m, LATE);
            w.ctx.request.verdict == if v.ctx.request.verdict == QUIET then QUIET
                                     else Verdict(true, true, 403, "Forbidden")
    ensures v.ctx.request.verdict == MARKED ==>
              HandledUnrecorded(Forgiving(HASTY_CHAIN), v, m, LATE) == Handled(Forgiving(HASTY_CHAIN), v, m, LATE)
  {
    hide Prepared, RanWith, BareRun, Enforced, Forgiving;
    ForgivenRun(HASTY_CHAIN, v, m, HASTY_CHAIN);
    var p := Prepared(Forgiving(HASTY_CHAIN), v, m);
    HastyOnTrailers(Bare(p.ctx));
    if v.ctx.request.verdict == MARKED {
      HastyRecords(p.ctx);
    }
  }

  /**
   Every link is proper, and still an audited denial is enforced: the chain fails after it answered and is let
   through as too slow, which clears the block and not the mark of an answer. A later audited failure clears the
   mark, so leaving that out changes a reply.
   */
  lemma SteadyIsNeeded(s: State, headers: seq<Header<string, string>>, body: seq<bv8>)
    requires s.request.verdict == QUIET
    ensures AllProper(HASTY_CHAIN)
    ensures var inputs := [Input(RequestHeadersMsg(headers, false), LATE), Input(RequestTrailersMsg([]), LATE)];
            var reply := Replies(Forgiving(HASTY_CHAIN), Opened(s), inputs)[1];
            reply.Immediate? && reply.status == 403
    ensures var inputs := [Input(RequestHeadersMsg(headers, false), LATE), Input(RequestBodyMsg(body), LATE),
                           Input(RequestTrailersMsg([]), LATE)];
            Replies(Forgiving(HASTY_CHAIN), Opened(s), inputs)[2].Proceed? &&
            RepliesUnrecorded(Forgiving(HASTY_CHAIN), Opened(s), inputs)[2].Immediate?
  {
    HastyIsProper();
    hide Handled, HandledUnrecorded, Forgiving, Built, Proper;
    var snap := Forgiving(HASTY_CHAIN);
    var m1, m2, m3 := RequestHeadersMsg(headers, false), RequestBodyMsg(body), RequestTrailersMsg([]);
    var a, b, c := Input(m1, LATE), Input(m2, LATE), Input(m3, LATE);
    var v := Handled(snap, Opened(s), m1, LATE);
    AfterHeaders(s, m1);
    assert [a][..0] == [] && [a, c][..1] == [a] && [a, b][..1] == [a] && [a, b, c][..2] == [a, b];
    assert StateAfter(snap, Opened(s), []) == Opened(s) == StateUnrecorded(snap, Opened(s), []);
    LastState(snap, Opened(s), [a]);
    LastUnrecorded(snap, Opened(s), [a]);
    hide StateAfter, StateUnrecorded, Replies, RepliesUnrecorded;
    AfterTrailers(v, m3);
    LastState(snap, Opened(s), [a, c]);
    AfterBody(v, m2);
    LastState(snap, Opened(s), [a, b]);
    LastUnrecorded(snap, Opened(s), [a, b]);
    AfterTrailers(Handled(snap, v, m2, LATE), m3);
    LastState(snap, Opened(s), [a, b, c]);
    AfterTrailers(HandledUnrecorded(snap, v, m2, LATE), m3);
    LastUnrecorded(snap, Opened(s), [a, b, c]);
  }
}
