/**
 What the replies of a stream mean to the proxy (internal/grpc/handlers.go, internal/grpc/mutators.go).

 Over every message sequence, a reply that lets a message go on makes the proxy send the headers that filters read:
 upstream for a request, downstream for a response. A body is replaced exactly if that body was modified.
 */
module StreamReplies {
  import opened Basics
  import opened Text
  import opened HeaderOverlay
  import opened ChainExecution
  import opened ExtProcStream

  /** What filters read of the headers to be sent upstream. */
  ghost function UpstreamOf(m: Mutations): Overlay {
    Overlay(m.upstreamShadow, set k | k in m.headersToRemove)
  }

  ghost function DownstreamOf(m: Mutations): Overlay {
    Overlay(m.downstreamShadow, set k | k in m.responseHeadersToRemove)
  }

  /** The lists and the shadow maps agree, in both directions. */
  ghost predicate Tidy(m: Mutations) {
    && Represents(m.headersToAdd, m.headersToRemove, m.upstreamShadow, UpstreamOf(m))
    && Represents(m.responseHeadersToAdd, m.responseHeadersToRemove, m.downstreamShadow, DownstreamOf(m))
  }

  /** The filter edits headers by the operations of the request context, which keep them tidy. */
  ghost predicate KeepsTidy(l: Link) {
    forall m: Moment, r: Request | Tidy(r.mutations) :: Tidy(l.filter.run(m, r).request.mutations)
  }

  ghost predicate AllKeepTidy(chain: seq<Link>) {
    forall l | l in chain :: KeepsTidy(l)
  }

  /*** Headers stay tidy ***/

  lemma LinkStaysTidy(s: State, p: Placed, phase: Phase)
    requires Tidy(s.request.mutations) && KeepsTidy(p.link)
    ensures Tidy(RunLink(s, p, phase).0.request.mutations)
  {
    hide Tidy;
  }

  lemma {:induction false} ChainStaysTidy(s: State, chain: seq<Link>, i: nat, phase: Phase)
    requires Tidy(s.request.mutations) && AllKeepTidy(chain) && i <= |chain|
    ensures Tidy(RunChain(s, PlacedFrom(chain, i), phase).0.request.mutations)
    decreases |chain| - i
  {
    hide Tidy, RunLink, KeepsTidy;
    if i < |chain| && !s.request.verdict.blocked {
      var p := Placed(i, chain[i]);
      assert PlacedFrom(chain, i)[0] == p && PlacedFrom(chain, i)[1..] == PlacedFrom(chain, i + 1);
      assert chain[i] in chain;
      LinkStaysTidy(s, p, phase);
      var (t, failed) := RunLink(s, p, phase);
      if !failed {
        ChainStaysTidy(t, chain, i + 1, phase);
      }
    }
  }

  /** The answer to an overload adds one header for the client. */
  lemma OverloadStaysTidy(m: Mutations)
    requires Tidy(m)
    ensures Tidy(WithDownstream(m, "retry-after", "1"))
    ensures DownstreamOf(WithDownstream(m, "retry-after", "1")) == SetIn(DownstreamOf(m), "retry-after", "1")
  {
    var k, o := "retry-after", DownstreamOf(m);
    assert Lower(k) == k;
    SetKeepsLower(o, k, "1");
    WithoutNameLists(m.responseHeadersToRemove, k, o.removes);
    UpsertedLists(m.responseHeadersToAdd, k, "1", o.sets);
    hide Lists, AllLower, Lower, Upserted, WithoutName;
    assert DownstreamOf(WithDownstream(m, k, "1")) == SetIn(o, k, "1");
  }

  ghost predicate SnapshotTidy(snap: Snapshot) {
    forall n | n in snap.chains :: AllKeepTidy(snap.chains[n])
  }

  ghost predicate StreamTidy(v: View) {
    Tidy(v.ctx.request.mutations) && AllKeepTidy(v.chain)
  }

  lemma PreparedTidy(snap: Snapshot, v: View, m: Message)
    requires SnapshotTidy(snap) && StreamTidy(v)
    ensures StreamTidy(Prepared(snap, v, m))
  {
    hide Received, AllKeepTidy, Tidy;
    ReceivedTidy(v, m);
    ReceivingKeepsRoute(v, m);
  }

  lemma ReceivedTidy(v: View, m: Message)
    requires Tidy(v.ctx.request.mutations)
    ensures Tidy(Received(v, m).ctx.request.mutations)
  {
    hide Folded, Represents;
  }

  lemma RanTidy(snap: Snapshot, v: View, phase: Phase, env: Env)
    requires StreamTidy(v)
    ensures StreamTidy(Ran(snap, v, phase, env))
  {
    hide Tidy, AllKeepTidy, Execute, LimitsOf, WithDownstream;
    OverloadStaysTidy(v.ctx.request.mutations);
    ExecuteStaysTidy(v.ctx, v.chain, phase);
  }

  lemma ExecuteStaysTidy(s: State, chain: seq<Link>, phase: Phase)
    requires Tidy(s.request.mutations) && AllKeepTidy(chain)
    ensures Tidy(Execute(s, chain, phase).0.request.mutations)
  {
    ChainStaysTidy(s, chain, 0, phase);
  }

  lemma {:induction false} StreamStaysTidy(snap: Snapshot, s: State, inputs: seq<Input>)
    requires SnapshotTidy(snap) && Tidy(s.request.mutations)
    ensures StreamTidy(StateAfter(snap, Opened(s), inputs))
  {
    hide Prepared, Ran, SnapshotTidy, Tidy;
    if inputs != [] {
      hide StreamTidy;
      var init, last := inputs[..|inputs| - 1], inputs[|inputs| - 1];
      StreamStaysTidy(snap, s, init);
      var v := StateAfter(snap, Opened(s), init);
      PreparedTidy(snap, v, last.message);
      RanTidy(snap, Prepared(snap, v, last.message), PhaseOf(last.message), last.env);
    }
  }

  /*** What replies mean ***/

  /** The body the proxy sends on. */
  function SentBody(original: seq<bv8>, change: BodyMutation): seq<bv8> {
    match change
    case KeepBody => original
    case ClearBody => []
    case ReplaceBody(content) => content
  }

  /** A list of headers to set and names to remove, applied to what came in. */
  ghost function Edited(headers: map<string, string>, add: seq<Header<string, string>>,
                        remove: seq<string>): map<string, string> {
    SetAll(headers - (set k | k in remove), add)
  }

  ghost function ListAt<T>(lists: map<Phase, seq<T>>, phase: Phase): seq<T> {
    if phase in lists then lists[phase] else []
  }

  /** The reply makes the proxy send this request's headers, trailers and bodies as filters left them. */
  ghost predicate Means(reply: Reply, m: Message, r: Request, headers: map<string, string>, body: seq<bv8>)
    requires reply.Proceed?
  {
    var sent, content := Applied(headers, reply.headers), SentBody(body, reply.content);
    match m
    case RequestHeadersMsg(_, _) => sent == Effective(headers, UpstreamOf(r.mutations)) && content == body
    case RequestBodyMsg(_) =>
      && sent == Effective(headers, UpstreamOf(r.mutations))
      && content == if RequestBody in r.unsaved.modified then r.unsaved.requestBody else body
    case RequestTrailersMsg(_) =>
      && content == body
      && sent == Edited(headers, ListAt(r.unsaved.trailersToAdd, RequestTrailers),
                        ListAt(r.unsaved.trailersToRemove, RequestTrailers))
    case ResponseHeadersMsg(_) => sent == Effective(headers, DownstreamOf(r.mutations)) && content == body
    case ResponseBodyMsg(_) =>
      sent == headers && content == if ResponseBody in r.unsaved.modified then r.unsaved.responseBody else body
    case ResponseTrailersMsg(_) =>
      && content == body
      && sent == Edited(headers, ListAt(r.unsaved.trailersToAdd, ResponseTrailers),
                        ListAt(r.unsaved.trailersToRemove, ResponseTrailers))
  }

  lemma EditedIsApplied(headers: map<string, string>, add: seq<Header<string, string>>, remove: seq<string>)
    ensures Applied(headers, Built(add, remove)) == Edited(headers, add, remove)
  {
    if add == [] && remove == [] {
      assert (set k | k in remove) == {};
      assert headers - {} == headers;
    }
  }

  lemma ReplyMeans(v: View, m: Message, headers: map<string, string>, body: seq<bv8>)
    requires Tidy(v.ctx.request.mutations) && ReplyTo(v, PhaseOf(m)).Proceed?
    ensures Means(ReplyTo(v, PhaseOf(m)), m, v.ctx.request, headers, body)
  {
    hide Represents, SetAll, RemoveAll, Effective, Edited;
    var r := v.ctx.request;
    MutationMeansOverlay(headers, r.mutations.headersToAdd, r.mutations.headersToRemove, r.mutations.upstreamShadow,
                         UpstreamOf(r.mutations));
    MutationMeansOverlay(headers, r.mutations.responseHeadersToAdd, r.mutations.responseHeadersToRemove,
                         r.mutations.downstreamShadow, DownstreamOf(r.mutations));
    EditedIsApplied(headers, TrailersAt(r.unsaved.trailersToAdd, PhaseOf(m)),
                    TrailersAt(r.unsaved.trailersToRemove, PhaseOf(m)));
  }

  /**
   Over every message sequence, each reply that lets a message go on makes the proxy send what filters read: request
   headers with the upstream changes, response headers with the downstream changes, and a body replaced exactly if
   that body was modified, whatever headers and body the proxy holds.
   */
  lemma RepliesMeanWhatFiltersRead(snap: Snapshot, s: State, inputs: seq<Input>, i: nat, headers: map<string, string>,
                                   body: seq<bv8>)
    requires SnapshotTidy(snap) && Tidy(s.request.mutations) && i < |inputs|
    requires Replies(snap, Opened(s), inputs)[i].Proceed?
    ensures var r := StateAfter(snap, Opened(s), inputs[..i + 1]).ctx.request;
            Means(Replies(snap, Opened(s), inputs)[i], inputs[i].message, r, headers, body)
  {
    hide SnapshotTidy, Tidy, Means, ReplyTo, StateAfter;
    ReplyAt(snap, Opened(s), inputs, i);
    StreamStaysTidy(snap, s, inputs[..i + 1]);
    ReplyMeans(StateAfter(snap, Opened(s), inputs[..i + 1]), inputs[i].message, headers, body);
  }

  /** And each reply that does not: the status and text of the block, and the headers set for the client. */
  lemma AnswersMeanTheBlock(snap: Snapshot, s: State, inputs: seq<Input>, i: nat, headers: map<string, string>)
    requires SnapshotTidy(snap) && Tidy(s.request.mutations) && i < |inputs|
    ensures var r := StateAfter(snap, Opened(s), inputs[..i + 1]).ctx.request;
            var reply := Replies(snap, Opened(s), inputs)[i];
            && (reply.Immediate? <==> r.verdict.blocked && !inputs[i].message.ResponseTrailersMsg?)
            && (reply.Immediate? ==>
                  && reply.body == r.verdict.body
                  && (r.verdict.status != 0 ==> reply.status == r.verdict.status)
                  && (r.verdict.status == 0 ==> reply.status == 403)
                  && Applied(headers, reply.headers) == headers + r.mutations.downstreamShadow)
  {
    hide SnapshotTidy, StateAfter, Represents, SetAll;
    ReplyAt(snap, Opened(s), inputs, i);
    StreamStaysTidy(snap, s, inputs[..i + 1]);
    var m := StateAfter(snap, Opened(s), inputs[..i + 1]).ctx.request.mutations;
    OnlySets(headers, m);
  }

  lemma OnlySets(headers: map<string, string>, m: Mutations)
    requires Tidy(m)
    ensures Applied(headers, Built(m.responseHeadersToAdd, [])) == headers + m.downstreamShadow
  {
    hide AllLower, Lists;
    EditedIsApplied(headers, m.responseHeadersToAdd, []);
    assert headers - (set k: string | k in []) == headers;
    SetAllAddsMap(headers, m.responseHeadersToAdd, m.downstreamShadow);
  }
}
