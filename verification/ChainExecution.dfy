/**
 Execution of a filter chain in one phase, with audit mode
 (internal/engine/executor.go, internal/engine/audit.go).

 A filter is a deterministic function on the request; an audited filter's denial or failure is recorded,
 rolled back and not enforced. The main result: an audited filter that denies or fails might as well not be
 in the chain, apart from its audit record.
 */
module ChainExecution {
  import opened Basics
  import opened HeaderOverlay

  datatype Phase = RequestHeaders | RequestBody | RequestTrailers | ResponseHeaders | ResponseBody | ResponseTrailers

  /** The path and header state that audit mode saves. */
  datatype Mutations = Mutations(
    path: string,
    headersToAdd: seq<Header<string, string>>, headersToRemove: seq<string>, upstreamShadow: map<string, string>,
    responseHeadersToAdd: seq<Header<string, string>>, responseHeadersToRemove: seq<string>,
    downstreamShadow: map<string, string>)

  datatype Verdict = Verdict(blocked: bool, answered: bool, status: nat, body: string)

  const QUIET := Verdict(false, false, 0, "")

  /** The rest of what filters see; audit mode does not save it. */
  datatype Unsaved = Unsaved(
    headers: map<string, string>, responseHeaders: map<string, string>,
    requestBody: seq<bv8>, responseBody: seq<bv8>, required: set<Phase>, modified: set<Phase>,
    trailersToAdd: map<Phase, seq<Header<string, string>>>, trailersToRemove: map<Phase, seq<string>>)

  /** What filters read and write. */
  datatype Request = Request(mutations: Mutations, verdict: Verdict, unsaved: Unsaved)

  /** What filters can read and not write: the phase, and whether the request ended with its headers. */
  datatype Moment = Moment(phase: Phase, endOfStream: bool)

  datatype AuditHit = AuditHit(index: nat, status: nat, failed: bool)

  datatype Outcome = Outcome(request: Request, failed: bool)

  /** `phases` is empty-optional for filters that do not declare phases: they run on request headers only. */
  datatype Filter = Filter(phases: Option<seq<Phase>>, run: (Moment, Request) -> Outcome)

  /** A filter in a chain, under its position. */
  datatype Link = Link(filter: Filter, audited: bool)

  datatype Placed = Placed(index: nat, link: Link)

  /** The request with what the engine keeps about it; `blockedBy` is -1 when no filter blocked. */
  datatype State = State(endOfStream: bool, request: Request, hits: seq<AuditHit>, blockedBy: int, filterFailed: bool)

  const INTERNAL_ERROR := "Internal Server Error"

  /** What a filter makes of the request at hand in a phase. */
  function OutcomeOf(f: Filter, s: State, phase: Phase): Outcome {
    f.run(Moment(phase, s.endOfStream), s.request)
  }

  predicate Runs(f: Filter, phase: Phase) {
    if f.phases.Some? then phase in f.phases.value else phase == RequestHeaders
  }

  method PhaseSupported(phases: seq<Phase>, target: Phase) returns (found: bool)
    ensures found <==> target in phases
  {
    for i := 0 to |phases|
      invariant target !in phases[..i]
    {
      if phases[i] == target {
        return true;
      }
    }
    return false;
  }

  /*** One filter ***/

  predicate Denies(o: Outcome) {
    o.request.verdict.blocked && !o.request.verdict.answered
  }

  /** The audited run is recorded and not enforced. */
  predicate Suppressed(o: Outcome) {
    o.failed || Denies(o)
  }

  function HitOf(index: nat, o: Outcome): AuditHit {
    if o.failed then AuditHit(index, 500, true)
    else AuditHit(index, if o.request.verdict.status == 0 then 403 else o.request.verdict.status, false)
  }

  function RolledBack(before: Request, after: Request): Request {
    after.(mutations := before.mutations, verdict := QUIET)
  }

  function RunAudited(s: State, f: Filter, index: nat, phase: Phase): State {
    var o := OutcomeOf(f, s, phase);
    if Suppressed(o) then s.(request := RolledBack(s.request, o.request), hits := s.hits + [HitOf(index, o)])
    else if o.request.verdict.blocked then s.(request := o.request, blockedBy := index)
    else s.(request := o.request)
  }

  function Failed(s: State, after: Request, index: nat): State {
    s.(request := after.(verdict := after.verdict.(blocked := true, status := 500, body := INTERNAL_ERROR)),
       blockedBy := index, filterFailed := true)
  }

  function RunEnforced(s: State, f: Filter, index: nat, phase: Phase): (State, bool) {
    var o := OutcomeOf(f, s, phase);
    if o.failed then (Failed(s, o.request, index), true)
    else (s.(request := o.request, blockedBy := if o.request.verdict.blocked then index else s.blockedBy), false)
  }

  /*** A chain ***/

  /** One link; the flag says that an enforced filter failed. */
  function RunLink(s: State, p: Placed, phase: Phase): (State, bool) {
    if !Runs(p.link.filter, phase) then (s, false)
    else if p.link.audited then (RunAudited(s, p.link.filter, p.index, phase), false)
    else RunEnforced(s, p.link.filter, p.index, phase)
  }

  /** Runs the links in order until one blocks or fails. */
  function RunChain(s: State, links: seq<Placed>, phase: Phase): (State, bool)
    decreases |links|
  {
    if links == [] || s.request.verdict.blocked then (s, false)
    else
      var (t, failed) := RunLink(s, links[0], phase);
      if failed then (t, true) else RunChain(t, links[1..], phase)
  }

  function PlacedFrom(chain: seq<Link>, i: nat): seq<Placed>
    requires i <= |chain|
    decreases |chain| - i
  {
    if i == |chain| then [] else [Placed(i, chain[i])] + PlacedFrom(chain, i + 1)
  }

  function Execute(s: State, chain: seq<Link>, phase: Phase): (State, bool) {
    RunChain(s, PlacedFrom(chain, 0), phase)
  }

  /** The context a stream's filters share. */
  class Context {
    var endOfStream: bool
    var request: Request
    var hits: seq<AuditHit>
    var blockedBy: int
    var filterFailed: bool

    function View(): State
      reads this
    {
      State(endOfStream, request, hits, blockedBy, filterFailed)
    }

    constructor (s: State)
      ensures View() == s
    {
      endOfStream, request := s.endOfStream, s.request;
      hits, blockedBy, filterFailed := s.hits, s.blockedBy, s.filterFailed;
    }

    method RestoreMutations(saved: Mutations)
      modifies `request
      ensures request == old(request).(mutations := saved)
    {
      request := request.(mutations := saved);
    }

    method Unblock()
      modifies `request
      ensures request == old(request).(verdict := QUIET)
    {
      request := request.(verdict := request.verdict.(blocked := false, answered := false, status := 0, body := ""));
    }

    method ExecuteAudited(f: Filter, index: nat, phase: Phase)
      modifies this
      ensures View() == RunAudited(old(View()), f, index, phase)
    {
      var saved := request.mutations;
      var o := f.run(Moment(phase, endOfStream), request);
      request := o.request;
      if o.failed {
        hits := hits + [AuditHit(index, 500, true)];
      } else if request.verdict.blocked && !request.verdict.answered {
        var status := request.verdict.status;
        if status == 0 {
          status := 403;
        }
        hits := hits + [AuditHit(index, status, false)];
      } else if request.verdict.blocked {
        blockedBy := index;
        return;
      } else {
        return;
      }
      RestoreMutations(saved);
      Unblock();
    }

    method ExecuteChain(chain: seq<Link>, phase: Phase) returns (failed: bool)
      modifies this
      ensures (View(), failed) == Execute(old(View()), chain, phase)
    {
      hide RunAudited;
      var i := 0;
      while i < |chain|
        invariant 0 <= i <= |chain|
        invariant RunChain(View(), PlacedFrom(chain, i), phase) == Execute(old(View()), chain, phase)
      {
        if request.verdict.blocked {
          break;
        }
        var f := chain[i].filter;
        var runs := phase == RequestHeaders;
        if f.phases.Some? {
          runs := PhaseSupported(f.phases.value, phase);
        }
        assert PlacedFrom(chain, i)[1..] == PlacedFrom(chain, i + 1);
        if !runs {
          i := i + 1;
          continue;
        }
        if chain[i].audited {
          ExecuteAudited(f, i, phase);
          i := i + 1;
          continue;
        }
        var o := f.run(Moment(phase, endOfStream), request);
        request := o.request;
        if o.failed {
          blockedBy := i;
          filterFailed := true;
          request := request.(verdict := request.verdict.(blocked := true, status := 500, body := INTERNAL_ERROR));
          return true;
        }
        if request.verdict.blocked {
          blockedBy := i;
          break;
        }
        i := i + 1;
      }
      return false;
    }
  }

  /*** Audit leaves no trace ***/

  /** At this moment the filter blocks, fails or leaves no verdict behind. */
  ghost predicate TameAt(f: Filter, m: Moment) {
    forall r: Request | r.verdict == QUIET ::
      f.run(m, r).failed || f.run(m, r).request.verdict.blocked || f.run(m, r).request.verdict == QUIET
  }

  /** At this moment, when denying or failing, the filter writes only what audit mode saves. */
  ghost predicate ContainedAt(f: Filter, m: Moment) {
    forall r: Request | r.verdict == QUIET && Suppressed(f.run(m, r)) :: f.run(m, r).request.unsaved == r.unsaved
  }

  /** What a chain may expect of a link that runs at this moment. */
  ghost predicate ProperAt(l: Link, m: Moment) {
    Runs(l.filter, m.phase) ==> TameAt(l.filter, m) && (l.audited ==> ContainedAt(l.filter, m))
  }

  /** The link runs, in audit mode, and would deny or fails. */
  predicate IsRecorded(s: State, p: Placed, phase: Phase) {
    Runs(p.link.filter, phase) && p.link.audited && Suppressed(OutcomeOf(p.link.filter, s, phase))
  }

  /** The audit records a run adds, in order. */
  function Recorded(s: State, links: seq<Placed>, phase: Phase): seq<AuditHit>
    decreases |links|
  {
    if links == [] || s.request.verdict.blocked then []
    else
      var p := links[0];
      var (t, failed) := RunLink(s, p, phase);
      (if IsRecorded(s, p, phase) then [HitOf(p.index, OutcomeOf(p.link.filter, s, phase))] else [])
      + (if failed then [] else Recorded(t, links[1..], phase))
  }

  /** The links without those recorded in `hits`. */
  function Without(links: seq<Placed>, hits: seq<AuditHit>): seq<Placed> {
    if links == [] then []
    else if hits != [] && hits[0].index == links[0].index then Without(links[1..], hits[1..])
    else [links[0]] + Without(links[1..], hits)
  }

  ghost predicate Ascending(links: seq<Placed>) {
    forall i, j | 0 <= i < j < |links| :: links[i].index < links[j].index
  }

  ghost predicate Standard(s: State, links: seq<Placed>, phase: Phase) {
    && s.request.verdict == QUIET && Ascending(links)
    && forall p | p in links :: ProperAt(p.link, Moment(phase, s.endOfStream))
  }

  lemma {:induction false} RecordedAreLater(s: State, links: seq<Placed>, phase: Phase, bound: nat)
    requires forall i | 0 <= i < |links| :: bound < links[i].index
    ensures Recorded(s, links, phase) == [] || bound < Recorded(s, links, phase)[0].index
    decreases |links|
  {
    hide RunLink, IsRecorded;
    if links != [] && !s.request.verdict.blocked {
      RecordedAreLater(RunLink(s, links[0], phase).0, links[1..], phase, bound);
    }
  }

  lemma {:induction false} WithoutNothing(links: seq<Placed>)
    ensures Without(links, []) == links
  {
    if links != [] {
      WithoutNothing(links[1..]);
    }
  }

  /** An unrecorded link does not look at the record, and stops the chain or leaves no verdict. */
  lemma UnrecordedLink(s: State, p: Placed, phase: Phase, hits: seq<AuditHit>)
    requires s.request.verdict == QUIET && ProperAt(p.link, Moment(phase, s.endOfStream)) && !IsRecorded(s, p, phase)
    ensures var (t, failed) := RunLink(s, p, phase);
            && t.hits == s.hits && RunLink(s.(hits := hits), p, phase) == (t.(hits := hits), failed)
            && (failed || t.request.verdict.blocked || t.request.verdict == QUIET)
  {
  }

  /** A recorded link leaves the request as it found it. */
  lemma RecordedLink(s: State, p: Placed, phase: Phase)
    requires s.request.verdict == QUIET && ProperAt(p.link, Moment(phase, s.endOfStream)) && IsRecorded(s, p, phase)
    ensures RunLink(s, p, phase) == (s.(hits := s.hits + [HitOf(p.index, OutcomeOf(p.link.filter, s, phase))]), false)
  {
  }

  /** Deleting the recorded links changes nothing but the record. */
  ghost predicate Traceless(s: State, links: seq<Placed>, phase: Phase, hits: seq<AuditHit>) {
    var (t, failed) := RunChain(s, links, phase);
    && t.hits == s.hits + Recorded(s, links, phase)
    && |Without(links, Recorded(s, links, phase))| + |Recorded(s, links, phase)| == |links|
    && RunChain(s.(hits := hits), Without(links, Recorded(s, links, phase)), phase) == (t.(hits := hits), failed)
  }

  lemma {:induction false} AuditIsTraceless(s: State, links: seq<Placed>, phase: Phase, hits: seq<AuditHit>)
    requires Standard(s, links, phase)
    ensures Traceless(s, links, phase, hits)
    decreases |links|
  {
    if links != [] {
      var p, rest := links[0], links[1..];
      assert ProperAt(p.link, Moment(phase, s.endOfStream)) && forall q | q in rest :: q in links;
      var (t, failed) := RunLink(s, p, phase);
      if IsRecorded(s, p, phase) {
        RecordedLink(s, p, phase);
        AuditIsTraceless(t, rest, phase, hits);
        RecordedStep(s, links, phase, hits);
      } else {
        UnrecordedLink(s, p, phase, hits);
        if failed || t.request.verdict.blocked {
          StoppingStep(s, links, phase, hits);
        } else {
          AuditIsTraceless(t, rest, phase, hits);
          RecordedAreLater(t, rest, phase, p.index);
          UnrecordedStep(s, links, phase, hits);
        }
      }
    }
  }

  lemma HitIndex(index: nat, o: Outcome)
    ensures HitOf(index, o).index == index
  {
  }

  lemma RecordedStep(s: State, links: seq<Placed>, phase: Phase, hits: seq<AuditHit>)
    requires links != [] && s.request.verdict == QUIET && IsRecorded(s, links[0], phase)
    requires var hit := HitOf(links[0].index, OutcomeOf(links[0].link.filter, s, phase));
             RunLink(s, links[0], phase) == (s.(hits := s.hits + [hit]), false)
    requires Traceless(RunLink(s, links[0], phase).0, links[1..], phase, hits)
    ensures Traceless(s, links, phase, hits)
  {
    hide RunLink, IsRecorded;
    var t := RunLink(s, links[0], phase).0;
    var hit, later := HitOf(links[0].index, OutcomeOf(links[0].link.filter, s, phase)), Recorded(t, links[1..], phase);
    hide HitOf;
    assert t.(hits := hits) == s.(hits := hits);
    assert Recorded(s, links, phase) == [hit] + later;
    assert s.hits + [hit] + later == s.hits + ([hit] + later);
    assert ([hit] + later)[1..] == later;
    assert hit.index == links[0].index by { HitIndex(links[0].index, OutcomeOf(links[0].link.filter, s, phase)); }
    assert Without(links, [hit] + later) == Without(links[1..], later);
    assert RunChain(s, links, phase) == RunChain(t, links[1..], phase);
    hide RunChain, Recorded, Without;
  }

  lemma StoppingStep(s: State, links: seq<Placed>, phase: Phase, hits: seq<AuditHit>)
    requires links != [] && s.request.verdict == QUIET && !IsRecorded(s, links[0], phase)
    requires var (t, failed) := RunLink(s, links[0], phase);
             && t.hits == s.hits && RunLink(s.(hits := hits), links[0], phase) == (t.(hits := hits), failed)
             && (failed || t.request.verdict.blocked)
    ensures Traceless(s, links, phase, hits)
  {
    hide RunLink, IsRecorded;
    var (t, failed) := RunLink(s, links[0], phase);
    if !failed {
      assert RunChain(t, links[1..], phase) == (t, false);
      assert RunChain(t.(hits := hits), links[1..], phase) == (t.(hits := hits), false);
    }
    assert Recorded(s, links, phase) == [];
    WithoutNothing(links);
  }

  lemma UnrecordedStep(s: State, links: seq<Placed>, phase: Phase, hits: seq<AuditHit>)
    requires links != [] && s.request.verdict == QUIET && !IsRecorded(s, links[0], phase)
    requires var (t, failed) := RunLink(s, links[0], phase);
             && !failed && t.hits == s.hits && RunLink(s.(hits := hits), links[0], phase) == (t.(hits := hits), false)
             && Traceless(t, links[1..], phase, hits)
             && (Recorded(t, links[1..], phase) == [] || links[0].index < Recorded(t, links[1..], phase)[0].index)
    ensures Traceless(s, links, phase, hits)
  {
    hide RunLink, IsRecorded;
    var t := RunLink(s, links[0], phase).0;
    var recorded := Recorded(s, links, phase);
    assert recorded == Recorded(t, links[1..], phase);
    var shorter := Without(links, recorded);
    assert shorter == [links[0]] + Without(links[1..], recorded);
    assert shorter[1..] == Without(links[1..], recorded);
  }

  /*** The same chains by position ***/

  lemma {:induction false} PlacedAt(chain: seq<Link>, i: nat)
    requires i <= |chain|
    ensures |PlacedFrom(chain, i)| == |chain| - i
    ensures forall j | 0 <= j < |chain| - i :: PlacedFrom(chain, i)[j] == Placed(i + j, chain[i + j])
    decreases |chain| - i
  {
    if i < |chain| {
      PlacedAt(chain, i + 1);
    }
  }

  lemma PlacedAscends(chain: seq<Link>)
    ensures Ascending(PlacedFrom(chain, 0))
  {
    PlacedAt(chain, 0);
  }

  function LinksOf(links: seq<Placed>): seq<Link> {
    seq(|links|, i requires 0 <= i < |links| => links[i].link)
  }

  /** The chain without the audited filters that deny or fail on this request. */
  function Enforced(s: State, chain: seq<Link>, phase: Phase): seq<Link> {
    var links := PlacedFrom(chain, 0);
    LinksOf(Without(links, Recorded(s, links, phase)))
  }

  ghost predicate SameLinks(a: seq<Placed>, b: seq<Placed>) {
    |a| == |b| && forall i | 0 <= i < |a| :: a[i].link == b[i].link
  }

  /** Two states that differ only in positions. */
  ghost predicate Alike(s: State, t: State) {
    && s.endOfStream == t.endOfStream && s.request == t.request && s.filterFailed == t.filterFailed
    && |s.hits| == |t.hits|
  }

  /** Nobody blocked in between, or the same link of both chains did. */
  ghost predicate SameBlocker(a: seq<Placed>, b: seq<Placed>, s: State, t: State, s': State, t': State)
    requires SameLinks(a, b)
  {
    || (s'.blockedBy == s.blockedBy && t'.blockedBy == t.blockedBy)
    || exists i | 0 <= i < |a| :: s'.blockedBy == a[i].index && t'.blockedBy == b[i].index
  }

  lemma {:induction false} PositionsDoNotMatter(a: seq<Placed>, b: seq<Placed>, s: State, t: State, phase: Phase)
    requires SameLinks(a, b) && Alike(s, t)
    ensures var (s', f) := RunChain(s, a, phase); var (t', g) := RunChain(t, b, phase);
            Alike(s', t') && f == g && SameBlocker(a, b, s, t, s', t')
    decreases |a|
  {
    assert s.request == t.request;
    if a != [] && !s.request.verdict.blocked {
      hide RunLink, Alike;
      var (s1, f) := RunLink(s, a[0], phase);
      var (t1, g) := RunLink(t, b[0], phase);
      LinkPosition(a[0], b[0], s, t, phase);
      assert SameBlocker(a[..1], b[..1], s, t, s1, t1) by {
        assert a[..1][0] == a[0] && b[..1][0] == b[0];
      }
      if f {
        BlockerInChain(a, b, s, t, s1, t1, s1, t1);
      } else {
        PositionsDoNotMatter(a[1..], b[1..], s1, t1, phase);
        BlockerInChain(a, b, s, t, s1, t1, RunChain(s, a, phase).0, RunChain(t, b, phase).0);
      }
    }
  }

  /** One link at two positions. */
  lemma LinkPosition(p: Placed, q: Placed, s: State, t: State, phase: Phase)
    requires p.link == q.link && Alike(s, t)
    ensures var (s', f) := RunLink(s, p, phase); var (t', g) := RunLink(t, q, phase);
            && Alike(s', t') && f == g
            && ((s'.blockedBy == s.blockedBy && t'.blockedBy == t.blockedBy)
                || (s'.blockedBy == p.index && t'.blockedBy == q.index))
  {
    assert OutcomeOf(p.link.filter, s, phase) == OutcomeOf(q.link.filter, t, phase);
    hide OutcomeOf;
  }

  lemma BlockerInChain(a: seq<Placed>, b: seq<Placed>, s: State, t: State, s1: State, t1: State, s': State, t': State)
    requires SameLinks(a, b) && a != [] && SameBlocker(a[..1], b[..1], s, t, s1, t1)
    requires SameBlocker(a[1..], b[1..], s1, t1, s', t')
    ensures SameBlocker(a, b, s, t, s', t')
  {
    if i :| 0 <= i < |a| - 1 && s'.blockedBy == a[1..][i].index && t'.blockedBy == b[1..][i].index {
      assert a[1..][i] == a[i + 1] && b[1..][i] == b[i + 1];
    }
  }

  lemma {:induction false} WithoutIsPart(links: seq<Placed>, hits: seq<AuditHit>)
    ensures forall p | p in Without(links, hits) :: p in links
  {
    if links != [] {
      WithoutIsPart(links[1..], []);
      WithoutIsPart(links[1..], hits);
      if hits != [] {
        WithoutIsPart(links[1..], hits[1..]);
      }
    }
  }

  /** The outcome of a chain is that of the chain without the audited filters that deny or fail. */
  ghost predicate NoTrace(s: State, chain: seq<Link>, phase: Phase) {
    var (full, failed) := Execute(s, chain, phase);
    var (short, failed') := Execute(s, Enforced(s, chain, phase), phase);
    short.request == full.request && short.filterFailed == full.filterFailed && failed' == failed
  }

  /**
   Executing a chain with audited filters is executing it without those that deny or fail: same request
   (path, headers, block and answer), same failure, same blocking filter; the record has one hit for each
   filter left out.
   */
  lemma AuditNoninterference(s: State, chain: seq<Link>, phase: Phase)
    requires s.request.verdict == QUIET && forall l | l in chain :: ProperAt(l, Moment(phase, s.endOfStream))
    ensures NoTrace(s, chain, phase)
    ensures var shorter := Enforced(s, chain, phase);
            var full, short := Execute(s, chain, phase).0, Execute(s, shorter, phase).0;
            && full.endOfStream == short.endOfStream == s.endOfStream
            && full.hits == s.hits + Recorded(s, PlacedFrom(chain, 0), phase)
            && |full.hits| == |s.hits| + |chain| - |shorter| && |short.hits| == |s.hits|
            && (|| (full.blockedBy == s.blockedBy == short.blockedBy)
                || (0 <= full.blockedBy < |chain| && 0 <= short.blockedBy < |shorter|
                    && chain[full.blockedBy] == shorter[short.blockedBy]))
  {
    hide RunChain, Without, Recorded, Traceless, ProperAt, PlacedFrom, LinksOf;
    var links, shorter := PlacedFrom(chain, 0), Enforced(s, chain, phase);
    var kept := Without(links, Recorded(s, links, phase));
    TracelessChain(s, chain, phase);
    KeptLinks(s, chain, phase);
    ChainKeepsMoment(s, links, phase);
    var full, short := RunChain(s, links, phase).0, RunChain(s, PlacedFrom(shorter, 0), phase).0;
    PositionsDoNotMatter(kept, PlacedFrom(shorter, 0), s, s, phase);
    BlockerAmong(chain, shorter, kept, s, full.(hits := s.hits), short);
  }

  lemma TracelessChain(s: State, chain: seq<Link>, phase: Phase)
    requires s.request.verdict == QUIET && forall l | l in chain :: ProperAt(l, Moment(phase, s.endOfStream))
    ensures var links := PlacedFrom(chain, 0);
            var (full, failed) := RunChain(s, links, phase);
            && full.hits == s.hits + Recorded(s, links, phase)
            && |Without(links, Recorded(s, links, phase))| + |Recorded(s, links, phase)| == |chain|
            && RunChain(s, Without(links, Recorded(s, links, phase)), phase) == (full.(hits := s.hits), failed)
  {
    hide ProperAt, RunChain, Without, Recorded, Ascending;
    PlacedAt(chain, 0);
    PlacedAscends(chain);
    AuditIsTraceless(s, PlacedFrom(chain, 0), phase, s.hits);
    assert s.(hits := s.hits) == s;
  }

  lemma KeptLinks(s: State, chain: seq<Link>, phase: Phase)
    ensures var links := PlacedFrom(chain, 0);
            var kept := Without(links, Recorded(s, links, phase));
            && SameLinks(kept, PlacedFrom(Enforced(s, chain, phase), 0))
            && |Enforced(s, chain, phase)| == |kept|
            && (forall p | p in kept :: p.index < |chain| && chain[p.index] == p.link)
  {
    hide RunChain, Without, Recorded;
    var links := PlacedFrom(chain, 0);
    PlacedAt(chain, 0);
    WithoutIsPart(links, Recorded(s, links, phase));
    PlacedAt(Enforced(s, chain, phase), 0);
  }

  lemma BlockerAmong(chain: seq<Link>, shorter: seq<Link>, kept: seq<Placed>, s: State, full: State, short: State)
    requires SameLinks(kept, PlacedFrom(shorter, 0)) && SameBlocker(kept, PlacedFrom(shorter, 0), s, s, full, short)
    requires forall p | p in kept :: p.index < |chain| && chain[p.index] == p.link
    ensures || (full.blockedBy == s.blockedBy == short.blockedBy)
            || (0 <= full.blockedBy < |chain| && 0 <= short.blockedBy < |shorter|
                && chain[full.blockedBy] == shorter[short.blockedBy])
  {
    PlacedAt(shorter, 0);
    if full.blockedBy != s.blockedBy || short.blockedBy != s.blockedBy {
      var i :| 0 <= i < |kept| && full.blockedBy == kept[i].index && short.blockedBy == PlacedFrom(shorter, 0)[i].index;
      assert kept[i] in kept;
    }
  }

  lemma ExecuteKeepsMoment(s: State, chain: seq<Link>, phase: Phase)
    ensures Execute(s, chain, phase).0.endOfStream == s.endOfStream
  {
    ChainKeepsMoment(s, PlacedFrom(chain, 0), phase);
  }

  lemma {:induction false} ChainKeepsMoment(s: State, links: seq<Placed>, phase: Phase)
    ensures RunChain(s, links, phase).0.endOfStream == s.endOfStream
    decreases |links|
  {
    if links != [] && !s.request.verdict.blocked {
      ChainKeepsMoment(RunLink(s, links[0], phase).0, links[1..], phase);
    }
  }
}
