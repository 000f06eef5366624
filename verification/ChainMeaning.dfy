/**
 What a chain does in a phase, link by link (internal/engine/executor.go, internal/engine/audit.go): which links run,
 what one link makes of the request, and that a chain is its links one after the other.
 */
module ChainMeaning {
  import opened Basics
  import opened HeaderOverlay
  import opened ChainExecution
  import opened AuditExactness
  import opened AuditedStreams

  /** The filter is for this phase: it declares it, or it declares none and this is request headers. */
  ghost predicate IsFor(f: Filter, phase: Phase) {
    match f.phases
    case Some(ps) => phase in ps
    case None => phase == RequestHeaders
  }

  /*** One link ***/

  /** A link that is not for the phase does nothing. */
  lemma LinkIsSkipped(s: State, l: Link, phase: Phase)
    requires !IsFor(l.filter, phase)
    ensures Execute(s, [l], phase) == (s, false)
  {
    OneLink(s, l, phase);
  }

  /** An enforced link that does not fail hands on what its filter made of the request. */
  lemma LinkIsEnforced(s: State, l: Link, phase: Phase)
    requires IsFor(l.filter, phase) && !l.audited && !s.request.verdict.blocked
    ensures var o := l.filter.run(Moment(phase, s.endOfStream), s.request);
            var (t, failed) := Execute(s, [l], phase);
            && failed == o.failed && t.hits == s.hits && t.endOfStream == s.endOfStream
            && (!o.failed ==> t.request == o.request && t.filterFailed == s.filterFailed)
            && (!o.failed ==> t.blockedBy == if o.request.verdict.blocked then 0 else s.blockedBy)
            && (o.failed ==>
                  && t.request.verdict.blocked && t.request.verdict.status == 500
                  && t.request.verdict.body == "Internal Server Error" && t.filterFailed && t.blockedBy == 0
                  && t.request.mutations == o.request.mutations && t.request.unsaved == o.request.unsaved)
  {
    OneLink(s, l, phase);
  }

  /**
   An audited link is enforced only if it answers. If it denies or fails, the path, the headers and the verdict are as
   if it had not run, and the record says what it would have done.
   */
  lemma LinkIsAudited(s: State, l: Link, phase: Phase)
    requires IsFor(l.filter, phase) && l.audited && !s.request.verdict.blocked
    ensures var o := l.filter.run(Moment(phase, s.endOfStream), s.request);
            var (t, failed) := Execute(s, [l], phase);
            var v := o.request.verdict;
            && !failed && t.filterFailed == s.filterFailed && t.endOfStream == s.endOfStream
            && (o.failed || (v.blocked && !v.answered) ==>
                  && t.request.mutations == s.request.mutations && t.request.verdict == Verdict(false, false, 0, "")
                  && t.request.unsaved == o.request.unsaved && t.blockedBy == s.blockedBy
                  && |t.hits| == |s.hits| + 1 && t.hits[..|s.hits|] == s.hits
                  && t.hits[|s.hits|].index == 0 && t.hits[|s.hits|].failed == o.failed
                  && t.hits[|s.hits|].status ==
                     if o.failed then 500 else if v.status == 0 then 403 else v.status)
            && (!o.failed && (v.blocked ==> v.answered) ==>
                  && t.request == o.request && t.hits == s.hits
                  && t.blockedBy == if v.blocked then 0 else s.blockedBy)
  {
    OneLink(s, l, phase);
  }

  /*** Links in a row ***/

  /** What the engine keeps apart from positions. */
  ghost predicate SameButRecords(s: State, t: State) {
    s.request == t.request && s.filterFailed == t.filterFailed && s.endOfStream == t.endOfStream
  }

  lemma {:induction false} BareComposes(s: State, a: seq<Link>, b: seq<Link>, phase: Phase)
    ensures var (t, failed) := BareRun(s, a, phase);
            BareRun(s, a + b, phase) ==
            if failed || t.request.verdict.blocked then (t, failed) else BareRun(t, b, phase)
    decreases |a|
  {
    hide BareLink;
    if a == [] {
      assert a + b == b;
    } else if !s.request.verdict.blocked {
      assert (a + b)[0] == a[0] && (a + b)[1..] == a[1..] + b;
      var (t, failed) := BareLink(s, a[0], phase);
      if !failed {
        BareComposes(t, a[1..], b, phase);
      }
    }
  }

  /** A chain runs its first part, and its second on what that hands on, unless the first blocks or fails. */
  lemma ChainsCompose(s: State, a: seq<Link>, b: seq<Link>, phase: Phase)
    ensures var (t, failed) := Execute(s, a, phase);
            var (u, failed') := Execute(t, b, phase);
            var (all, failed'') := Execute(s, a + b, phase);
            if failed || t.request.verdict.blocked then SameButRecords(all, t) && failed'' == failed
            else SameButRecords(all, u) && failed'' == failed'
  {
    hide Execute, BareRun;
    var t := Execute(s, a, phase).0;
    ExecuteIsBare(s, a, phase);
    ExecuteIsBare(t, b, phase);
    ExecuteIsBare(s, a + b, phase);
    BareComposes(Bare(s), a, b, phase);
    SameBare(Execute(s, a + b, phase).0, t);
    SameBare(Execute(s, a + b, phase).0, Execute(t, b, phase).0);
    assert Bare(t).request == t.request;
  }

  lemma SameBare(s: State, t: State)
    ensures Bare(s) == Bare(t) ==> SameButRecords(s, t)
  {
    assert Bare(s).request == s.request && Bare(s).filterFailed == s.filterFailed
           && Bare(s).endOfStream == s.endOfStream;
  }

  /** The links of a chain that are for the phase. */
  ghost function ForPhase(chain: seq<Link>, phase: Phase): seq<Link> {
    if chain == [] then []
    else (if IsFor(chain[0].filter, phase) then [chain[0]] else []) + ForPhase(chain[1..], phase)
  }

  lemma {:induction false} BareForPhase(s: State, chain: seq<Link>, phase: Phase)
    requires s == Bare(s)
    ensures BareRun(s, chain, phase) == BareRun(s, ForPhase(chain, phase), phase)
    decreases |chain|
  {
    if chain != [] && !s.request.verdict.blocked {
      var l, rest := chain[0], ForPhase(chain[1..], phase);
      var (t, failed) := BareLink(s, l, phase);
      LinkLeavesBare(s, l, phase);
      if IsFor(l.filter, phase) {
        hide BareLink;
        assert ([l] + rest)[1..] == rest;
        if !failed {
          BareForPhase(t, chain[1..], phase);
        }
      } else {
        assert (t, failed) == (s, false);
        hide BareLink;
        BareForPhase(s, chain[1..], phase);
        assert [] + rest == rest;
      }
    }
  }

  /** A chain does what its links for the phase do; filters that declare no phases run on request headers only. */
  lemma OnlyLinksForPhaseRun(s: State, chain: seq<Link>, phase: Phase)
    ensures var (t, failed) := Execute(s, chain, phase);
            var (u, failed') := Execute(s, ForPhase(chain, phase), phase);
            SameButRecords(t, u) && failed == failed'
  {
    hide Execute, BareRun;
    ExecuteIsBare(s, chain, phase);
    ExecuteIsBare(s, ForPhase(chain, phase), phase);
    assert Bare(Bare(s)) == Bare(s);
    BareForPhase(Bare(s), chain, phase);
    SameBare(Execute(s, chain, phase).0, Execute(s, ForPhase(chain, phase), phase).0);
  }

  /** In particular a chain of filters without declared phases does nothing after request headers. */
  lemma {:induction false} UndeclaredRunOnHeadersOnly(s: State, chain: seq<Link>, phase: Phase, i: nat)
    requires phase != RequestHeaders && i <= |chain| && forall l | l in chain :: l.filter.phases.None?
    ensures RunChain(s, PlacedFrom(chain, i), phase) == (s, false)
    ensures i == 0 ==> Execute(s, chain, phase) == (s, false)
    decreases |chain| - i
  {
    if i < |chain| {
      UndeclaredRunOnHeadersOnly(s, chain, phase, i + 1);
      assert chain[i] in chain;
      assert PlacedFrom(chain, i)[0] == Placed(i, chain[i]) && PlacedFrom(chain, i)[1..] == PlacedFrom(chain, i + 1);
    }
  }
}
