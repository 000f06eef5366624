/**
 Exactly which filters can be audited without a trace (internal/engine/executor.go, internal/engine/audit.go).

 `ChainExecution.AuditNoninterference` asks every link of a chain to be proper. Here the converse: a link that
 is not proper leaves a trace, alone or before an audited filter that denies.
 */
module AuditExactness {
  import opened Basics
  import opened HeaderOverlay
  import opened ChainExecution

  function Fresh(m: Moment, r: Request): State {
    State(m.endOfStream, r, [], -1, false)
  }

  /** Denies every request in one phase, as an unconditional deny filter does. */
  function Denier(phase: Phase): Filter {
    Filter(
      Some([phase]),
      (m: Moment, r: Request) => Outcome(r.(verdict := Verdict(true, false, 403, "Forbidden")), false))
  }

  lemma DenierIsProper(phase: Phase, m: Moment)
    ensures ProperAt(Link(Denier(phase), true), m)
  {
  }

  /*** Short chains ***/

  lemma OneLink(s: State, l: Link, phase: Phase)
    ensures Execute(s, [], phase) == (s, false)
    ensures !s.request.verdict.blocked ==> Execute(s, [l], phase) == RunLink(s, Placed(0, l), phase)
  {
    PlacedAt([l], 0);
    assert PlacedFrom([l], 0) == [Placed(0, l)];
    if !s.request.verdict.blocked {
      var (t, failed) := RunLink(s, Placed(0, l), phase);
      assert [Placed(0, l)][1..] == [];
      assert RunChain(t, [], phase) == (t, false);
    }
  }

  /** The recorded part of a chain of one. */
  lemma OneEnforced(s: State, l: Link, phase: Phase)
    requires !s.request.verdict.blocked
    ensures Enforced(s, [l], phase) == if IsRecorded(s, Placed(0, l), phase) then [] else [l]
  {
    hide RunLink, IsRecorded;
    PlacedAt([l], 0);
    var p := Placed(0, l);
    assert PlacedFrom([l], 0) == [p] && [p][1..] == [];
    var (t, failed) := RunLink(s, p, phase);
    assert Recorded(t, [], phase) == [];
    if IsRecorded(s, p, phase) {
      var hit := HitOf(0, OutcomeOf(l.filter, s, phase));
      assert Recorded(s, [p], phase) == [hit];
      assert Without([p], [hit]) == Without([], []) == [];
    } else {
      assert Recorded(s, [p], phase) == [];
      WithoutNothing([p]);
      assert LinksOf([p]) == [l];
    }
  }

  /*** One audited filter ***/

  /**
   Audited alone, a filter leaves no trace on any request if and only if its suppressed runs write only what
   audit mode saves.
   */
  lemma AuditedAloneLeavesNoTraceIff(f: Filter, m: Moment)
    requires Runs(f, m.phase)
    ensures (forall s: State | s.endOfStream == m.endOfStream && s.request.verdict == QUIET ::
               NoTrace(s, [Link(f, true)], m.phase))
       <==> ContainedAt(f, m)
  {
    hide Enforced, Execute;
    var l := Link(f, true);
    forall s: State | s.endOfStream == m.endOfStream && s.request.verdict == QUIET
      ensures NoTrace(s, [l], m.phase) <==>
              (Suppressed(f.run(m, s.request)) ==> f.run(m, s.request).request.unsaved == s.request.unsaved)
    {
      OneLink(s, l, m.phase);
      OneEnforced(s, l, m.phase);
    }
    if !ContainedAt(f, m) {
      var r: Request :| r.verdict == QUIET && Suppressed(f.run(m, r)) && f.run(m, r).request.unsaved != r.unsaved;
      assert !NoTrace(Fresh(m, r), [l], m.phase);
    }
  }

  /*** A link among others ***/

  /** A link that lets the request through, then an audited one that denies. */
  lemma TwoLinks(s: State, l: Link, d: Link, phase: Phase)
    requires !s.request.verdict.blocked && !IsRecorded(s, Placed(0, l), phase)
    requires var (t, failed) := RunLink(s, Placed(0, l), phase);
             !failed && !t.request.verdict.blocked && IsRecorded(t, Placed(1, d), phase)
    ensures var t := RunLink(s, Placed(0, l), phase).0; Execute(s, [l, d], phase) == RunLink(t, Placed(1, d), phase)
    ensures Enforced(s, [l, d], phase) == [l]
  {
    var p, q := Placed(0, l), Placed(1, d);
    var t := RunLink(s, p, phase).0;
    var hit := HitOf(1, OutcomeOf(d.filter, t, phase));
    assert RunLink(t, q, phase).1 == false;
    hide RunLink, IsRecorded;
    PlacedAt([l, d], 0);
    assert PlacedFrom([l, d], 0) == [p, q] && [p, q][1..] == [q] && [q][1..] == [];
    var u := RunLink(t, q, phase).0;
    assert RunChain(u, [], phase) == (u, false) && RunChain(t, [q], phase) == (u, false);
    assert Recorded(u, [], phase) == [] && Recorded(t, [q], phase) == [hit];
    assert Recorded(s, [p, q], phase) == [hit];
    assert Without([q], [hit]) == Without([], []) == [];
    assert Without([p, q], [hit]) == [p] + Without([q], [hit]) == [p];
    assert LinksOf([p]) == [l];
  }

  /** A verdict left behind without a block is cleared with a later audited denial. */
  lemma PendingVerdictIsLost(l: Link, m: Moment, r: Request)
    requires r.verdict == QUIET && Runs(l.filter, m.phase)
    requires var o := l.filter.run(m, r); !o.failed && !o.request.verdict.blocked && o.request.verdict != QUIET
    ensures !NoTrace(Fresh(m, r), [l, Link(Denier(m.phase), true)], m.phase)
  {
    var s, d := Fresh(m, r), Link(Denier(m.phase), true);
    TwoLinks(s, l, d, m.phase);
    OneLink(s, l, m.phase);
    hide Enforced, Execute;
  }

  /** Notes a status for later and lets the request through. */
  const ANNOTATOR := Filter(None, (m: Moment, r: Request) => Outcome(r.(verdict := r.verdict.(status := 429)), false))

  /** A concrete filter that only fails to be tame: it writes nothing unsaved, and yet its chain leaves a trace. */
  lemma TameIsNeeded(r: Request, endOfStream: bool)
    requires r.verdict == QUIET
    ensures var m := Moment(RequestHeaders, endOfStream);
            && ContainedAt(ANNOTATOR, m)
            && !NoTrace(Fresh(m, r), [Link(ANNOTATOR, false), Link(Denier(RequestHeaders), true)], RequestHeaders)
  {
    var m := Moment(RequestHeaders, endOfStream);
    assert Runs(ANNOTATOR, m.phase);
    assert ANNOTATOR.run(m, r).request.verdict == Verdict(false, false, 429, "");
    PendingVerdictIsLost(Link(ANNOTATOR, false), m, r);
  }

  /**
   A link leaves no trace in any chain of otherwise proper links, on any request, if and only if it is itself
   proper at that moment.
   */
  lemma NoTraceInChainsIffProper(l: Link, m: Moment)
    ensures (forall s: State, chain: seq<Link> |
               && s.endOfStream == m.endOfStream && s.request.verdict == QUIET
               && (forall k | k in chain :: k == l || ProperAt(k, m)) :: NoTrace(s, chain, m.phase))
       <==> ProperAt(l, m)
  {
    hide NoTrace;
    if ProperAt(l, m) {
      forall s: State, chain: seq<Link> |
        && s.endOfStream == m.endOfStream && s.request.verdict == QUIET
        && (forall k | k in chain :: k == l || ProperAt(k, m)) ensures NoTrace(s, chain, m.phase)
      {
        AuditNoninterference(s, chain, m.phase);
      }
    } else {
      var s, chain := TraceOf(l, m);
    }
  }

  /** A request and a chain on which an improper link leaves a trace. */
  lemma TraceOf(l: Link, m: Moment) returns (s: State, chain: seq<Link>)
    requires !ProperAt(l, m)
    ensures s.endOfStream == m.endOfStream && s.request.verdict == QUIET
    ensures (forall k | k in chain :: k == l || ProperAt(k, m)) && !NoTrace(s, chain, m.phase)
  {
    hide NoTrace;
    if !TameAt(l.filter, m) {
      var r: Request :| r.verdict == QUIET && !l.filter.run(m, r).failed
        && !l.filter.run(m, r).request.verdict.blocked && l.filter.run(m, r).request.verdict != QUIET;
      s, chain := Fresh(m, r), [l, Link(Denier(m.phase), true)];
      DenierIsProper(m.phase, m);
      PendingVerdictIsLost(l, m, r);
    } else {
      assert l == Link(l.filter, true) && !ContainedAt(l.filter, m);
      AuditedAloneLeavesNoTraceIff(l.filter, m);
      s :| s.endOfStream == m.endOfStream && s.request.verdict == QUIET && !NoTrace(s, [l], m.phase);
      chain := [l];
    }
  }
}
