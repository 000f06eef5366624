/**
 What one message does to a stream (internal/grpc/handlers.go, internal/grpc/server.go): what filters get to see of it,
 which chain the stream is given, and what limits and missing bodies make of the request.
 */
module StreamMeaning {
  import opened Basics
  import opened Text
  import opened HeaderOverlay
  import opened ChainExecution
  import opened ExtProcStream
  import opened StreamReplies

  /*** What filters see ***/

  /** Everything else stays as it was. */
  ghost predicate SameApartFromMessage(r: Request, r': Request) {
    && r'.verdict == r.verdict && r'.unsaved.required == r.unsaved.required && r'.unsaved.modified == r.unsaved.modified
    && r'.unsaved.trailersToAdd == r.unsaved.trailersToAdd && r'.unsaved.trailersToRemove == r.unsaved.trailersToRemove
    && UpstreamOf(r'.mutations) == UpstreamOf(r.mutations) && DownstreamOf(r'.mutations) == DownstreamOf(r.mutations)
    && r'.mutations.headersToAdd == r.mutations.headersToAdd
    && r'.mutations.responseHeadersToAdd == r.mutations.responseHeadersToAdd
  }

  /**
   A message changes what it brings: request headers and trailers add to the request's headers,
   response headers and trailers to the response's, and each body is the request's or the response's.
   */
  lemma MessageIsSeen(v: View, m: Message)
    ensures var r, w := v.ctx.request, Received(v, m);
            var r' := w.ctx.request;
            && r'.unsaved.headers ==
               (match m
                case RequestHeadersMsg(h, _) => Folded(r.unsaved.headers, h)
                case RequestTrailersMsg(h) => Folded(r.unsaved.headers, h)
                case _ => r.unsaved.headers)
            && r'.unsaved.responseHeaders ==
               (match m
                case ResponseHeadersMsg(h) => Folded(r.unsaved.responseHeaders, h)
                case ResponseTrailersMsg(h) => Folded(r.unsaved.responseHeaders, h)
                case _ => r.unsaved.responseHeaders)
            && r'.unsaved.requestBody == (if m.RequestBodyMsg? then m.body else r.unsaved.requestBody)
            && r'.unsaved.responseBody == (if m.ResponseBodyMsg? then m.body else r.unsaved.responseBody)
            && r'.mutations.path ==
               (if m.RequestHeadersMsg? then Read(r'.unsaved.headers, ":path") else r.mutations.path)
  {
    hide Folded;
  }

  lemma RestIsKept(v: View, m: Message)
    ensures SameApartFromMessage(v.ctx.request, Received(v, m).ctx.request)
  {
    hide Folded, UpstreamOf, DownstreamOf;
    SameLists(v.ctx.request.mutations, Received(v, m).ctx.request.mutations);
  }

  lemma SameLists(a: Mutations, b: Mutations)
    ensures a.upstreamShadow == b.upstreamShadow && a.headersToRemove == b.headersToRemove ==>
              UpstreamOf(a) == UpstreamOf(b)
    ensures a.downstreamShadow == b.downstreamShadow && a.responseHeadersToRemove == b.responseHeadersToRemove ==>
              DownstreamOf(a) == DownstreamOf(b)
  {
  }

  /** One more header: under its name in lower case, after any value it has, cookies joined as cookies are. */
  lemma OneMoreHeader(headers: map<string, string>, more: seq<Header<string, string>>, h: Header<string, string>,
                      name: string)
    ensures var before, after := Folded(headers, more), Folded(headers, more + [h]);
            && (name != Lower(h.key) ==> (name in after <==> name in before) && Read(after, name) == Read(before, name))
            && Lower(h.key) in after
            && (Read(before, Lower(h.key)) == "" ==> after[Lower(h.key)] == h.value)
            && (Read(before, Lower(h.key)) != "" && Lower(h.key) == "cookie" ==>
                  after[Lower(h.key)] == before["cookie"] + "; " + h.value)
            && (Read(before, Lower(h.key)) != "" && Lower(h.key) != "cookie" ==>
                  after[Lower(h.key)] == before[Lower(h.key)] + ", " + h.value)
  {
    hide Lower;
    assert (more + [h])[..|more|] == more;
  }

  /*** The chain ***/

  /** Denied with 503. */
  ghost predicate Unavailable(r: Request) {
    r.verdict.blocked && r.verdict.status == 503 && r.verdict.body == "Service Unavailable"
  }

  /**
   A stream is given its chain once. Without a policy, with a caller that must be known and is not, or with a chain
   that the snapshot does not have, it is denied; without a route it has no chain and goes on.
   */
  lemma ChainIsGiven(snap: Snapshot, v: View)
    ensures var w, r := Resolved(snap, v), v.ctx.request;
            && (v.resolved ==> w == v)
            && (!v.resolved ==>
                  && w.resolved
                  && (snap.config.None? ==> Unavailable(w.ctx.request) && w.chain == v.chain)
                  && (snap.config.Some? && snap.config.value.unknownSource(r) ==>
                        Unavailable(w.ctx.request) && w.chain == v.chain)
                  && (snap.config.Some? && !snap.config.value.unknownSource(r) ==>
                        var name := snap.config.value.route(r);
                        && w.name == name
                        && (name == "" ==> w.ctx == v.ctx && w.chain == v.chain)
                        && (name != "" && name in snap.chains ==> w.ctx == v.ctx && w.chain == snap.chains[name])
                        && (name != "" && name !in snap.chains ==>
                              Unavailable(w.ctx.request) && w.chain == v.chain)))
  {
  }

  /*** Limits ***/

  /** The chain has a concurrency limit and there are too many requests. */
  ghost predicate TooMany(snap: Snapshot, v: View, env: Env) {
    env.overloaded && snap.config.Some? && v.name in snap.config.value.settings
    && snap.config.value.settings[v.name].maxConcurrency > 0
  }

  /** Over the limit, a request is let through as it is if the chain says Allow, and told to come back otherwise. */
  lemma TooManyRequests(snap: Snapshot, v: View, phase: Phase, env: Env)
    requires !Blocked(v) && v.chain != [] && TooMany(snap, v, env) && Tidy(v.ctx.request.mutations)
    ensures var w := Ran(snap, v, phase, env);
            if snap.config.value.settings[v.name].onOverload == Allow then w == v
            else
              && Unavailable(w.ctx.request) && w.executions == v.executions
              && DownstreamOf(w.ctx.request.mutations) ==
                 SetIn(DownstreamOf(v.ctx.request.mutations), "retry-after", "1")
              && UpstreamOf(w.ctx.request.mutations) == UpstreamOf(v.ctx.request.mutations)
              && w.ctx.request.unsaved == v.ctx.request.unsaved
  {
    OverloadStaysTidy(v.ctx.request.mutations);
    hide Represents, Upserted, WithoutName;
  }

  /** The chain has a deadline, it passed, and the chain failed. */
  ghost predicate TooLate(snap: Snapshot, v: View, env: Env, failed: bool) {
    failed && env.expired && snap.config.Some? && v.name in snap.config.value.settings
    && snap.config.value.settings[v.name].timeout > 0
  }

  /**
   Otherwise the chain runs once. If it fails past its deadline, the block is lifted if the chain says Allow and is a
   503 otherwise; in all other cases what the chain decides stands.
   */
  lemma ChainRunsOnce(snap: Snapshot, v: View, phase: Phase, env: Env)
    requires !Blocked(v) && v.chain != [] && !TooMany(snap, v, env)
    ensures var w := Ran(snap, v, phase, env);
            var (t, failed) := Execute(v.ctx, v.chain, phase);
            && w.executions == v.executions + 1
            && w.ctx.request.mutations == t.request.mutations && w.ctx.request.unsaved == t.request.unsaved
            && w.ctx.hits == t.hits && w.ctx.blockedBy == t.blockedBy
            && if !TooLate(snap, v, env, failed) then w.ctx == t
               else
                 && !w.ctx.filterFailed
                 && if snap.config.value.settings[v.name].onTimeout == Allow then
                      && !w.ctx.request.verdict.blocked && w.ctx.request.verdict.status == 0
                      && w.ctx.request.verdict.body == ""
                      && w.ctx.request.verdict.answered == t.request.verdict.answered
                    else Unavailable(w.ctx.request)
  {
    hide Execute;
  }

  /** A request that is blocked, or has no chain, is not run at all. */
  lemma NothingToRun(snap: Snapshot, v: View, phase: Phase, env: Env)
    requires Blocked(v) || v.chain == []
    ensures Ran(snap, v, phase, env) == v
  {
  }

  /*** Missing bodies ***/

  /** Only response headers are refused, and only while a body that was asked for is missing. */
  lemma RefusedIffMissing(v: View, m: Message)
    ensures var w := Guarded(v, m);
            var missing := && m.ResponseHeadersMsg? && !v.ctx.request.verdict.blocked
                           && RequestBody in v.ctx.request.unsaved.required && !v.bodySeen && !v.ctx.endOfStream;
            && (!missing ==> w == v)
            && (missing ==>
                  && w.ctx.request.verdict.blocked && w.ctx.request.verdict.status == 500
                  && w.ctx.request.verdict.body == "Internal Server Error"
                  && w.ctx.request.mutations == v.ctx.request.mutations)
  {
  }

  /*** One message ***/

  /** The replies of a stream answer its messages one by one, in phases of their own. */
  lemma PhasesAreTheMessages(m: Message)
    ensures match PhaseOf(m)
            case RequestHeaders => m.RequestHeadersMsg?
            case RequestBody => m.RequestBodyMsg?
            case RequestTrailers => m.RequestTrailersMsg?
            case ResponseHeaders => m.ResponseHeadersMsg?
            case ResponseBody => m.ResponseBodyMsg?
            case ResponseTrailers => m.ResponseTrailersMsg?
  {
  }
}
