/**
 One ext_proc stream: a message loop over six kinds of messages
 (internal/grpc/handlers.go, internal/grpc/server.go).

 A stream pins one policy snapshot, routes once, and runs the chosen chain in the phase of every message.
 What the clock and other streams decide (a chain over its concurrency limit, a chain past its deadline)
 comes with each message.
 */
module ExtProcStream {
  import opened Basics
  import opened Text
  import opened HeaderOverlay
  import opened ChainExecution

  datatype Action = Deny | Allow

  datatype Limits = Limits(maxConcurrency: nat, onOverload: Action, timeout: nat, onTimeout: Action)

  /** A loaded policy; routing and the check for unknown callers are functions of the request. */
  datatype Config = Config(route: Request -> string, unknownSource: Request -> bool, settings: map<string, Limits>)

  datatype Snapshot = Snapshot(config: Option<Config>, chains: map<string, seq<Link>>)

  datatype Message =
    | RequestHeadersMsg(headers: seq<Header<string, string>>, endOfStream: bool)
    | RequestBodyMsg(body: seq<bv8>)
    | RequestTrailersMsg(headers: seq<Header<string, string>>)
    | ResponseHeadersMsg(headers: seq<Header<string, string>>)
    | ResponseBodyMsg(body: seq<bv8>)
    | ResponseTrailersMsg(headers: seq<Header<string, string>>)

  /** What happens around a message: the chain is over its limit; its deadline passes while it runs. */
  datatype Env = Env(overloaded: bool, expired: bool)

  datatype BodyMutation = KeepBody | ClearBody | ReplaceBody(content: seq<bv8>)

  /** An answer that ends the request, or the changes to go on with. */
  datatype Reply =
    | Immediate(status: nat, body: string, headers: Mutation)
    | Proceed(phase: Phase, headers: Mutation, content: BodyMutation)

  /** The stream's state; `routings` and `executions` count what was done so far. */
  datatype View = View(
    resolved: bool, chain: seq<Link>, name: string, ctx: State, bodySeen: bool,
    routings: nat, executions: nat)

  const UNAVAILABLE := "Service Unavailable"

  const NO_LIMITS := Limits(0, Deny, 0, Deny)

  function Blocked(v: View): bool {
    v.ctx.request.verdict.blocked
  }

  function Block(s: State, status: nat, body: string): State {
    s.(request := s.request.(verdict := s.request.verdict.(blocked := true, status := status, body := body)))
  }

  function WithUnsaved(v: View, u: Unsaved): View {
    v.(ctx := v.ctx.(request := v.ctx.request.(unsaved := u)))
  }

  /*** What the handlers do, as functions ***/

  /** Picks the chain once; no policy, an unknown caller or a missing chain is a denial. */
  function Resolved(snap: Snapshot, v: View): View {
    if v.resolved then v
    else
      var v' := v.(resolved := true);
      if snap.config.None? then v'.(ctx := Block(v.ctx, 503, UNAVAILABLE))
      else if snap.config.value.unknownSource(v.ctx.request) then v'.(ctx := Block(v.ctx, 503, UNAVAILABLE))
      else
        var name := snap.config.value.route(v.ctx.request);
        var v'' := v'.(name := name, routings := v.routings + 1);
        if name == "" then v''
        else if name in snap.chains then v''.(chain := snap.chains[name])
        else v''.(ctx := Block(v.ctx, 503, UNAVAILABLE))
  }

  function LimitsOf(snap: Snapshot, name: string): Limits {
    if snap.config.Some? && name in snap.config.value.settings then snap.config.value.settings[name] else NO_LIMITS
  }

  /** Sets a header of the response to the client. */
  function WithDownstream(m: Mutations, key: string, value: string): Mutations {
    m.(downstreamShadow := m.downstreamShadow[key := value],
       responseHeadersToRemove := WithoutName(m.responseHeadersToRemove, key),
       responseHeadersToAdd := Upserted(m.responseHeadersToAdd, key, value))
  }

  /** Asks the client to come back, next to the denial. */
  function Overloaded(s: State): State {
    Block(s.(request := s.request.(mutations := WithDownstream(s.request.mutations, "retry-after", "1"))), 503,
          UNAVAILABLE)
  }

  function TimedOut(s: State, onTimeout: Action): State {
    if onTimeout == Allow
    then
      var verdict := s.request.verdict.(blocked := false, status := 0, body := "");
      s.(filterFailed := false, request := s.request.(verdict := verdict))
    else Block(s.(filterFailed := false), 503, UNAVAILABLE)
  }

  /** Runs `chosen` for the stream's chain. */
  function RanWith(snap: Snapshot, v: View, chosen: seq<Link>, phase: Phase, env: Env): View {
    if Blocked(v) || v.chain == [] then v
    else
      var limits := LimitsOf(snap, v.name);
      if limits.maxConcurrency > 0 && env.overloaded
      then if limits.onOverload == Allow then v else v.(ctx := Overloaded(v.ctx))
      else
        var (s, failed) := Execute(v.ctx, chosen, phase);
        var s' := if limits.timeout > 0 && failed && env.expired then TimedOut(s, limits.onTimeout) else s;
        v.(executions := v.executions + 1, ctx := s')
  }

  function Ran(snap: Snapshot, v: View, phase: Phase, env: Env): View {
    RanWith(snap, v, v.chain, phase, env)
  }

  function BuiltBody(content: seq<bv8>, modified: bool): BodyMutation {
    if !modified then KeepBody else if content == [] then ClearBody else ReplaceBody(content)
  }

  function TrailersAt<T>(trailers: map<Phase, seq<T>>, phase: Phase): seq<T> {
    if phase in trailers then trailers[phase] else []
  }

  /** The header changes sent in a phase; request headers are sent again with the body. */
  function HeadersFor(r: Request, phase: Phase): Mutation {
    var m := r.mutations;
    match phase
    case RequestHeaders => Built(m.headersToAdd, m.headersToRemove)
    case RequestBody => Built(m.headersToAdd, m.headersToRemove)
    case ResponseHeaders => Built(m.responseHeadersToAdd, m.responseHeadersToRemove)
    case ResponseBody => NoMutation
    case _ => Built(TrailersAt(r.unsaved.trailersToAdd, phase), TrailersAt(r.unsaved.trailersToRemove, phase))
  }

  function BodyFor(r: Request, phase: Phase): BodyMutation {
    match phase
    case RequestBody => BuiltBody(r.unsaved.requestBody, RequestBody in r.unsaved.modified)
    case ResponseBody => BuiltBody(r.unsaved.responseBody, ResponseBody in r.unsaved.modified)
    case _ => KeepBody
  }

  /** Ends the request with the verdict; header changes for the client go with it. */
  function Answered(r: Request): Reply {
    Immediate(if r.verdict.status == 0 then 403 else r.verdict.status, r.verdict.body,
              Built(r.mutations.responseHeadersToAdd, []))
  }

  function ReplyTo(v: View, phase: Phase): Reply {
    var r := v.ctx.request;
    if r.verdict.blocked && phase != ResponseTrailers then Answered(r)
    else Proceed(phase, HeadersFor(r, phase), BodyFor(r, phase))
  }

  function PhaseOf(m: Message): Phase {
    match m
    case RequestHeadersMsg(_, _) => RequestHeaders
    case RequestBodyMsg(_) => RequestBody
    case RequestTrailersMsg(_) => RequestTrailers
    case ResponseHeadersMsg(_) => ResponseHeaders
    case ResponseBodyMsg(_) => ResponseBody
    case ResponseTrailersMsg(_) => ResponseTrailers
  }

  function PathOf(headers: map<string, string>): string {
    if ":path" in headers then headers[":path"] else ""
  }

  /** The value under a name once another occurrence arrives. */
  function Joined(headers: map<string, string>, key: string, value: string): string {
    if key in headers && headers[key] != "" then
      headers[key] + (if key == "cookie" then "; " else ", ") + value
    else value
  }

  /** Headers with lower-case names, repeated ones folded into one value. */
  function Folded(headers: map<string, string>, more: seq<Header<string, string>>): map<string, string> {
    if more == [] then headers
    else
      var before, last := Folded(headers, more[..|more| - 1]), more[|more| - 1];
      before[Lower(last.key) := Joined(before, Lower(last.key), last.value)]
  }

  lemma {:induction false} FoldedIsLower(headers: map<string, string>, more: seq<Header<string, string>>)
    requires AllLower(headers.Keys)
    ensures AllLower(Folded(headers, more).Keys)
  {
    if more != [] {
      FoldedIsLower(headers, more[..|more| - 1]);
      LowerIsLower(more[|more| - 1].key);
      hide Lower;
    }
  }

  method CopyHeaders(dst: map<string, string>, headers: seq<Header<string, string>>) returns (out: map<string, string>)
    ensures out == Folded(dst, headers)
  {
    hide Lower;
    out := dst;
    for i := 0 to |headers|
      invariant out == Folded(dst, headers[..i])
    {
      assert headers[..i + 1][..i] == headers[..i];
      var key, val := Lower(headers[i].key), headers[i].value;
      if key in out && out[key] != "" {
        var sep := ", ";
        if key == "cookie" {
          sep := "; ";
        }
        val := out[key] + sep + val;
      }
      out := out[key := val];
    }
    assert headers[..|headers|] == headers;
  }

  function Received(v: View, m: Message): View {
    var u := v.ctx.request.unsaved;
    match m
    case RequestHeadersMsg(h, eos) =>
      var w := WithUnsaved(v, u.(headers := Folded(u.headers, h)));
      var r := w.ctx.request;
      var path := PathOf(Folded(u.headers, h));
      w.(ctx := w.ctx.(endOfStream := eos, request := r.(mutations := r.mutations.(path := path))))
    case RequestBodyMsg(b) => WithUnsaved(v, u.(requestBody := b)).(bodySeen := true)
    case RequestTrailersMsg(h) => WithUnsaved(v, u.(headers := Folded(u.headers, h)))
    case ResponseHeadersMsg(h) => WithUnsaved(v, u.(responseHeaders := Folded(u.responseHeaders, h)))
    case ResponseBodyMsg(b) => WithUnsaved(v, u.(responseBody := b))
    case ResponseTrailersMsg(h) => WithUnsaved(v, u.(responseHeaders := Folded(u.responseHeaders, h)))
  }

  /** The body was to be inspected, the request has one, and it never came. */
  predicate Uninspected(v: View) {
    RequestBody in v.ctx.request.unsaved.required && !v.bodySeen && !v.ctx.endOfStream
  }

  function Guarded(v: View, m: Message): View {
    if m.ResponseHeadersMsg? && !Blocked(v) && Uninspected(v) then v.(ctx := Block(v.ctx, 500, INTERNAL_ERROR)) else v
  }

  /** Everything a handler does before it runs the chain. */
  function Prepared(snap: Snapshot, v: View, m: Message): View {
    Guarded(Resolved(snap, Received(v, m)), m)
  }

  function Handled(snap: Snapshot, v: View, m: Message, env: Env): View {
    Ran(snap, Prepared(snap, v, m), PhaseOf(m), env)
  }

  /*** The handlers ***/

  class Stream {
    const snap: Snapshot
    const ctx: Context
    var resolved: bool
    var chain: seq<Link>
    var name: string
    var bodySeen: bool
    ghost var routings: nat
    ghost var executions: nat

    ghost function Now(): View
      reads this, ctx
    {
      View(resolved, chain, name, ctx.View(), bodySeen, routings, executions)
    }

    constructor (snap: Snapshot, s: State)
      ensures Now() == Opened(s) && this.snap == snap && fresh(ctx)
    {
      this.snap := snap;
      this.ctx := new Context(s.(endOfStream := false));
      resolved, chain, name, bodySeen, routings, executions := false, [], "", false, 0, 0;
    }

    method BlockWith(status: nat, body: string)
      modifies ctx
      ensures ctx.View() == Block(old(ctx.View()), status, body)
    {
      ctx.request := ctx.request.(verdict := ctx.request.verdict.(blocked := true, status := status, body := body));
    }

    method Resolve()
      modifies this, ctx
      ensures Now() == Resolved(snap, old(Now()))
    {
      if resolved {
        return;
      }
      resolved := true;
      if snap.config.None? {
        BlockWith(503, UNAVAILABLE);
        return;
      }
      if snap.config.value.unknownSource(ctx.request) {
        BlockWith(503, UNAVAILABLE);
        return;
      }
      name := snap.config.value.route(ctx.request);
      routings := routings + 1;
      if name == "" {
        return;
      }
      if name !in snap.chains {
        BlockWith(503, UNAVAILABLE);
        return;
      }
      chain := snap.chains[name];
    }

    method Run(phase: Phase, env: Env)
      modifies this`executions, ctx
      ensures Now() == Ran(snap, old(Now()), phase, env)
    {
      hide Execute, Upserted, WithoutName, LimitsOf;
      if ctx.request.verdict.blocked || |chain| == 0 {
        return;
      }
      var limits := LimitsOf(snap, name);
      if limits.maxConcurrency > 0 && env.overloaded {
        if limits.onOverload == Allow {
          return;
        }
        var m := ctx.request.mutations;
        var removes := RemoveKey(m.responseHeadersToRemove, "retry-after");
        var adds := UpsertHeader(m.responseHeadersToAdd, "retry-after", "1");
        var shadow := m.downstreamShadow["retry-after" := "1"];
        m := m.(downstreamShadow := shadow, responseHeadersToRemove := removes, responseHeadersToAdd := adds);
        ctx.request := ctx.request.(mutations := m);
        BlockWith(503, UNAVAILABLE);
        return;
      }
      executions := executions + 1;
      var failed := ctx.ExecuteChain(chain, phase);
      if limits.timeout > 0 && failed && env.expired {
        ctx.filterFailed := false;
        if limits.onTimeout == Allow {
          ctx.request := ctx.request.(verdict := ctx.request.verdict.(blocked := false, status := 0, body := ""));
          return;
        }
        BlockWith(503, UNAVAILABLE);
      }
    }

    /** Ends the request with the status and body of the block. */
    method ImmediateResponse() returns (r: Reply)
      ensures r == Answered(ctx.request)
    {
      var status := ctx.request.verdict.status;
      if status == 0 {
        status := 403;
      }
      var headers := BuildHeaderMutation(ctx.request.mutations.responseHeadersToAdd, []);
      return Immediate(status, ctx.request.verdict.body, headers);
    }

    method HandleRequestHeaders(m: Message, env: Env) returns (r: Reply)
      requires m.RequestHeadersMsg?
      modifies this, ctx
      ensures Now() == Handled(snap, old(Now()), m, env) && r == ReplyTo(Now(), RequestHeaders)
    {
      hide Ran, Resolved, Folded, Built;
      var u := ctx.request.unsaved;
      var headers := CopyHeaders(u.headers, m.headers);
      ctx.request := ctx.request.(unsaved := u.(headers := headers));
      ctx.request := ctx.request.(mutations := ctx.request.mutations.(path := PathOf(ctx.request.unsaved.headers)));
      ctx.endOfStream := m.endOfStream;
      assert Now() == Received(old(Now()), m);
      Resolve();
      Run(RequestHeaders, env);
      if ctx.request.verdict.blocked {
        r := ImmediateResponse();
        return;
      }
      var changes := ctx.request.mutations;
      var out := BuildHeaderMutation(changes.headersToAdd, changes.headersToRemove);
      return Proceed(RequestHeaders, out, KeepBody);
    }

    method HandleRequestBody(m: Message, env: Env) returns (r: Reply)
      requires m.RequestBodyMsg?
      modifies this, ctx
      ensures Now() == Handled(snap, old(Now()), m, env) && r == ReplyTo(Now(), RequestBody)
    {
      hide Ran, Resolved, Folded, Built;
      bodySeen := true;
      ctx.request := ctx.request.(unsaved := ctx.request.unsaved.(requestBody := m.body));
      assert Now() == Received(old(Now()), m);
      Resolve();
      Run(RequestBody, env);
      if ctx.request.verdict.blocked {
        r := ImmediateResponse();
        return;
      }
      var changes := ctx.request.mutations;
      var out := BuildHeaderMutation(changes.headersToAdd, changes.headersToRemove);
      var u := ctx.request.unsaved;
      return Proceed(RequestBody, out, BuiltBody(u.requestBody, RequestBody in u.modified));
    }

    method HandleRequestTrailers(m: Message, env: Env) returns (r: Reply)
      requires m.RequestTrailersMsg?
      modifies this, ctx
      ensures Now() == Handled(snap, old(Now()), m, env) && r == ReplyTo(Now(), RequestTrailers)
    {
      hide Ran, Resolved, Folded, Built;
      var u := ctx.request.unsaved;
      var headers := CopyHeaders(u.headers, m.headers);
      ctx.request := ctx.request.(unsaved := u.(headers := headers));
      assert Now() == Received(old(Now()), m);
      Resolve();
      Run(RequestTrailers, env);
      if ctx.request.verdict.blocked {
        r := ImmediateResponse();
        return;
      }
      var changes := ctx.request.unsaved;
      var out := BuildHeaderMutation(TrailersAt(changes.trailersToAdd, RequestTrailers),
                                     TrailersAt(changes.trailersToRemove, RequestTrailers));
      return Proceed(RequestTrailers, out, KeepBody);
    }

    method HandleResponseHeaders(m: Message, env: Env) returns (r: Reply)
      requires m.ResponseHeadersMsg?
      modifies this, ctx
      ensures Now() == Handled(snap, old(Now()), m, env) && r == ReplyTo(Now(), ResponseHeaders)
    {
      hide Ran, Resolved, Folded, Built;
      var u := ctx.request.unsaved;
      var headers := CopyHeaders(u.responseHeaders, m.headers);
      ctx.request := ctx.request.(unsaved := u.(responseHeaders := headers));
      assert Now() == Received(old(Now()), m);
      Resolve();
      if !ctx.request.verdict.blocked && RequestBody in ctx.request.unsaved.required && !bodySeen && !ctx.endOfStream {
        BlockWith(500, INTERNAL_ERROR);
      }
      assert Now() == Guarded(Resolved(snap, Received(old(Now()), m)), m);
      Run(ResponseHeaders, env);
      if ctx.request.verdict.blocked {
        r := ImmediateResponse();
        return;
      }
      var changes := ctx.request.mutations;
      var out := BuildHeaderMutation(changes.responseHeadersToAdd, changes.responseHeadersToRemove);
      return Proceed(ResponseHeaders, out, KeepBody);
    }

    method HandleResponseBody(m: Message, env: Env) returns (r: Reply)
      requires m.ResponseBodyMsg?
      modifies this, ctx
      ensures Now() == Handled(snap, old(Now()), m, env) && r == ReplyTo(Now(), ResponseBody)
    {
      hide Ran, Resolved, Folded, Built;
      ctx.request := ctx.request.(unsaved := ctx.request.unsaved.(responseBody := m.body));
      assert Now() == Received(old(Now()), m);
      Resolve();
      Run(ResponseBody, env);
      if ctx.request.verdict.blocked {
        r := ImmediateResponse();
        return;
      }
      var changes := ctx.request.unsaved;
      return Proceed(ResponseBody, NoMutation, BuiltBody(changes.responseBody, ResponseBody in changes.modified));
    }

    /** The response has left already: a block can no longer replace it. */
    method HandleResponseTrailers(m: Message, env: Env) returns (r: Reply)
      requires m.ResponseTrailersMsg?
      modifies this, ctx
      ensures Now() == Handled(snap, old(Now()), m, env) && r == ReplyTo(Now(), ResponseTrailers)
    {
      hide Ran, Resolved, Folded, Built;
      var u := ctx.request.unsaved;
      var headers := CopyHeaders(u.responseHeaders, m.headers);
      ctx.request := ctx.request.(unsaved := u.(responseHeaders := headers));
      assert Now() == Received(old(Now()), m);
      Resolve();
      Run(ResponseTrailers, env);
      var changes := ctx.request.unsaved;
      var out := BuildHeaderMutation(TrailersAt(changes.trailersToAdd, ResponseTrailers),
                                     TrailersAt(changes.trailersToRemove, ResponseTrailers));
      return Proceed(ResponseTrailers, out, KeepBody);
    }

    /** The message loop; `inputs` is everything the proxy sends before it closes the stream. */
    method Process(inputs: seq<Input>) returns (replies: seq<Reply>)
      modifies this, ctx
      ensures Now() == StateAfter(snap, old(Now()), inputs) && replies == Replies(snap, old(Now()), inputs)
    {
      hide Handled, ReplyTo;
      replies := [];
      for i := 0 to |inputs|
        invariant Now() == StateAfter(snap, old(Now()), inputs[..i])
                && replies == Replies(snap, old(Now()), inputs[..i])
      {
        var m, env := inputs[i].message, inputs[i].env;
        var r: Reply;
        match m {
          case RequestHeadersMsg(_, _) => r := HandleRequestHeaders(m, env);
          case RequestBodyMsg(_) => r := HandleRequestBody(m, env);
          case RequestTrailersMsg(_) => r := HandleRequestTrailers(m, env);
          case ResponseHeadersMsg(_) => r := HandleResponseHeaders(m, env);
          case ResponseBodyMsg(_) => r := HandleResponseBody(m, env);
          case ResponseTrailersMsg(_) => r := HandleResponseTrailers(m, env);
        }
        assert inputs[..i + 1][..i] == inputs[..i];
        replies := replies + [r];
      }
      assert inputs[..|inputs|] == inputs;
    }
  }

  /*** Whole streams ***/

  datatype Input = Input(message: Message, env: Env)

  function StateAfter(snap: Snapshot, v: View, inputs: seq<Input>): View {
    if inputs == [] then v
    else
      var last := inputs[|inputs| - 1];
      Handled(snap, StateAfter(snap, v, inputs[..|inputs| - 1]), last.message, last.env)
  }

  function Replies(snap: Snapshot, v: View, inputs: seq<Input>): (r: seq<Reply>)
    ensures |r| == |inputs|
  {
    if inputs == [] then []
    else
      Replies(snap, v, inputs[..|inputs| - 1])
      + [ReplyTo(StateAfter(snap, v, inputs), PhaseOf(inputs[|inputs| - 1].message))]
  }

  lemma {:induction false} ReplyAt(snap: Snapshot, v: View, inputs: seq<Input>, i: nat)
    requires i < |inputs|
    ensures Replies(snap, v, inputs)[i] == ReplyTo(StateAfter(snap, v, inputs[..i + 1]), PhaseOf(inputs[i].message))
  {
    if i < |inputs| - 1 {
      ReplyAt(snap, v, inputs[..|inputs| - 1], i);
      assert inputs[..|inputs| - 1][..i + 1] == inputs[..i + 1];
    } else {
      assert inputs[..i + 1] == inputs;
    }
  }

  /** A stream that has just opened. */
  function Opened(s: State): View {
    View(false, [], "", s.(endOfStream := false), false, 0, 0)
  }

  /*** Routing ***/

  lemma HandlingRoutes(snap: Snapshot, v: View, m: Message, env: Env)
    ensures var w := Handled(snap, v, m, env);
            && w.resolved
            && (v.resolved ==> w.chain == v.chain && w.name == v.name && w.routings == v.routings)
            && (!v.resolved ==> w.routings <= v.routings + 1)
            && (!v.resolved ==> w.chain == v.chain || (w.name in snap.chains && w.chain == snap.chains[w.name]))
  {
    hide Received, Ran;
    ReceivingKeepsRoute(v, m);
    RunningKeepsRoute(snap, Guarded(Resolved(snap, Received(v, m)), m), PhaseOf(m), env);
  }

  lemma RunningKeepsRoute(snap: Snapshot, v: View, phase: Phase, env: Env)
    ensures var w := Ran(snap, v, phase, env);
            w.resolved == v.resolved && w.chain == v.chain && w.name == v.name && w.routings == v.routings
            && w.bodySeen == v.bodySeen && w.ctx.endOfStream == v.ctx.endOfStream
  {
    hide Execute, Upserted, WithoutName, LimitsOf;
    ExecuteKeepsMoment(v.ctx, v.chain, phase);
  }

  /** Routing is decided by the first message and never again, against the pinned snapshot. */
  lemma {:induction false} RoutedOnce(snap: Snapshot, s: State, inputs: seq<Input>)
    requires inputs != []
    ensures var v, first := StateAfter(snap, Opened(s), inputs), StateAfter(snap, Opened(s), inputs[..1]);
            && v.resolved && v.routings <= 1 && v.chain == first.chain && v.name == first.name
            && (v.chain == [] || (v.name in snap.chains && v.chain == snap.chains[v.name]))
  {
    hide Handled;
    var init, last := inputs[..|inputs| - 1], inputs[|inputs| - 1];
    HandlingRoutes(snap, StateAfter(snap, Opened(s), init), last.message, last.env);
    if init == [] {
      assert inputs[..1] == inputs;
    } else {
      RoutedOnce(snap, s, init);
      assert init[..1] == inputs[..1];
    }
  }

  /** Without a policy, with an unknown caller or with a missing chain the first message is denied. */
  lemma FirstMessageFailsClosed(snap: Snapshot, s: State, m: Message, env: Env)
    requires !m.ResponseTrailersMsg? && ReplyTo(Handled(snap, Opened(s), m, env), PhaseOf(m)).Proceed?
    ensures var r := Received(Opened(s), m).ctx.request;
            && snap.config.Some? && !snap.config.value.unknownSource(r)
            && (snap.config.value.route(r) == "" || snap.config.value.route(r) in snap.chains)
  {
    hide Execute, Upserted, WithoutName, Received;
    ReceivingKeepsRoute(Opened(s), m);
  }

  /** A message goes on only if the chain let it through, or its limits say to go on without it. */
  lemma ProceedingMeansAllowed(snap: Snapshot, v: View, m: Message, env: Env)
    requires v.resolved && v.chain != [] && !m.ResponseTrailersMsg?
    requires ReplyTo(Handled(snap, v, m, env), PhaseOf(m)).Proceed?
    ensures var limits := LimitsOf(snap, v.name);
            var (t, failed) := Execute(Received(v, m).ctx, v.chain, PhaseOf(m));
            || !t.request.verdict.blocked
            || (limits.maxConcurrency > 0 && env.overloaded && limits.onOverload == Allow)
            || (limits.timeout > 0 && failed && env.expired && limits.onTimeout == Allow)
  {
    hide Execute, Upserted, WithoutName, Received;
    assert Received(v, m).resolved && Received(v, m).chain == v.chain && Received(v, m).name == v.name by {
      ReceivingKeepsRoute(v, m);
    }
  }

  lemma ReceivingKeepsRoute(v: View, m: Message)
    ensures var w := Received(v, m);
            && w.resolved == v.resolved && w.chain == v.chain && w.name == v.name
            && w.executions == v.executions && w.routings == v.routings
            && w.ctx.request.verdict == v.ctx.request.verdict
            && w.ctx.request.mutations.responseHeadersToAdd == v.ctx.request.mutations.responseHeadersToAdd
            && w.ctx.request.unsaved.required == v.ctx.request.unsaved.required
            && w.bodySeen == (v.bodySeen || m.RequestBodyMsg?)
            && w.ctx.endOfStream == (if m.RequestHeadersMsg? then m.endOfStream else v.ctx.endOfStream)
  {
  }

  /*** A block is final ***/

  lemma BlockedStays(snap: Snapshot, v: View, m: Message, env: Env)
    requires v.resolved && Blocked(v)
    ensures var w := Handled(snap, v, m, env);
            && w.resolved && w.executions == v.executions && w.ctx.request.verdict == v.ctx.request.verdict
            && w.ctx.request.mutations.responseHeadersToAdd == v.ctx.request.mutations.responseHeadersToAdd
  {
    hide Received;
    ReceivingKeepsRoute(v, m);
  }

  /** Once a handler ends blocked, no filter runs again and the verdict stands. */
  lemma {:induction false} BlockIsFinal(snap: Snapshot, v: View, inputs: seq<Input>)
    requires v.resolved && Blocked(v)
    ensures var w := StateAfter(snap, v, inputs);
            && w.resolved && w.executions == v.executions && w.ctx.request.verdict == v.ctx.request.verdict
            && w.ctx.request.mutations.responseHeadersToAdd == v.ctx.request.mutations.responseHeadersToAdd
  {
    hide Handled;
    if inputs != [] {
      var init, last := inputs[..|inputs| - 1], inputs[|inputs| - 1];
      BlockIsFinal(snap, v, init);
      BlockedStays(snap, StateAfter(snap, v, init), last.message, last.env);
    }
  }

  /** And every later message except response trailers is answered with that verdict. */
  lemma BlockedIsAnswered(snap: Snapshot, v: View, inputs: seq<Input>, i: nat)
    requires v.resolved && Blocked(v) && i < |inputs|
    ensures if inputs[i].message.ResponseTrailersMsg? then Replies(snap, v, inputs)[i].Proceed?
            else Replies(snap, v, inputs)[i] == Answered(v.ctx.request)
  {
    BlockIsFinal(snap, v, inputs[..i + 1]);
    ReplyAt(snap, v, inputs, i);
  }

  /*** Bodies that were to be inspected ***/

  function LastEndOfStream(inputs: seq<Input>): bool {
    if inputs == [] then false
    else
      var m := inputs[|inputs| - 1].message;
      if m.RequestHeadersMsg? then m.endOfStream else LastEndOfStream(inputs[..|inputs| - 1])
  }

  predicate SawBody(inputs: seq<Input>) {
    exists i | 0 <= i < |inputs| :: inputs[i].message.RequestBodyMsg?
  }

  lemma HandlingRemembers(snap: Snapshot, v: View, m: Message, env: Env)
    ensures var w := Handled(snap, v, m, env);
            && w.bodySeen == (v.bodySeen || m.RequestBodyMsg?)
            && w.ctx.endOfStream == (if m.RequestHeadersMsg? then m.endOfStream else v.ctx.endOfStream)
  {
    hide Received, Ran;
    ReceivingKeepsRoute(v, m);
    RunningKeepsRoute(snap, Guarded(Resolved(snap, Received(v, m)), m), PhaseOf(m), env);
  }

  lemma {:induction false} StreamRemembers(snap: Snapshot, s: State, inputs: seq<Input>)
    ensures var v := StateAfter(snap, Opened(s), inputs);
            v.bodySeen == SawBody(inputs) && v.ctx.endOfStream == LastEndOfStream(inputs)
  {
    if inputs != [] {
      var init, last := inputs[..|inputs| - 1], inputs[|inputs| - 1];
      StreamRemembers(snap, s, init);
      HandlingRemembers(snap, StateAfter(snap, Opened(s), init), last.message, last.env);
      hide Handled;
      assert inputs[|inputs| - 1] == last && forall i | 0 <= i < |init| :: inputs[i] == init[i];
      if i :| 0 <= i < |inputs| && inputs[i].message.RequestBodyMsg? {
        assert i == |inputs| - 1 || init[i].message.RequestBodyMsg?;
      }
    }
  }

  lemma UninspectedIsBlocked(snap: Snapshot, v: View, m: Message, env: Env)
    requires m.ResponseHeadersMsg? && Uninspected(v)
    ensures Blocked(Handled(snap, v, m, env))
  {
    hide Received;
    ReceivingKeepsRoute(v, m);
  }

  /**
   If a filter has asked for the body, the request has one and no body message came, the response headers are
   not let through.
   */
  lemma UninspectedNeverPasses(snap: Snapshot, s: State, inputs: seq<Input>, i: nat)
    requires i < |inputs| && inputs[i].message.ResponseHeadersMsg?
    requires RequestBody in StateAfter(snap, Opened(s), inputs[..i]).ctx.request.unsaved.required
    requires !SawBody(inputs[..i]) && !LastEndOfStream(inputs[..i])
    ensures Replies(snap, Opened(s), inputs)[i].Immediate?
  {
    var before := StateAfter(snap, Opened(s), inputs[..i]);
    StreamRemembers(snap, s, inputs[..i]);
    UninspectedIsBlocked(snap, before, inputs[i].message, inputs[i].env);
    hide Handled;
    assert inputs[..i + 1][..i] == inputs[..i];
    ReplyAt(snap, Opened(s), inputs, i);
  }
}
