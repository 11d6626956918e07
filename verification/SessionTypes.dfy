/** Values of the streaming session: configuration, the response being emitted, the deadline log. */
module SessionTypes {
  import opened Text
  import opened SessionEnvironment
  import CD = ChunkedDecoder
  import Rsp = ResponseParsing

  const IO_CHUNK: nat := 16 * 1024

  datatype Config = Config(
    capacity: nat, highWatermark: nat, lowWatermark: nat, maxHeader: nat, maxRequestBody: nat, maxResponseBody: nat)

  predicate ValidConfig(c: Config) {
    && 0 < c.lowWatermark < c.highWatermark < c.capacity
    && c.maxHeader + c.maxRequestBody <= SIZE_MAX
    && c.maxHeader + c.maxResponseBody <= SIZE_MAX
  }

  datatype StreamState =
    | ReadingRequestHead
    | ConnectingUpstream
    | SendingRequest
    | ReadingResponseHead
    | StreamingResponse
    | DrainingResponse
    | Closed

  datatype Role = Client | Server

  datatype Event = EpollIn | EpollOut | EpollErr | EpollHup | EpollRdHup

  // ---------------------------------------------------------------- the response being emitted

  /** The one response of a request cycle: nothing yet, an upstream response relayed, or an error. */
  datatype Plan =
    | Nothing
    | Relay(asked: string, verb: string, rawHead: string, head: Rsp.Head, close: bool, body: string, ended: bool)
    | ErrorReply(code: nat, reason: string)

  /** The answer to a client whose upstream failed. */
  const BAD_GATEWAY: Plan := ErrorReply(502, "Bad Gateway")

  /** The answers to a request head that cannot be served. */
  const REFUSALS: set<Plan> :=
    {ErrorReply(400, "Bad Request"), ErrorReply(404, "Not Found"), ErrorReply(413, "Payload Too Large"),
     ErrorReply(503, "Service Unavailable")}

  /** What the session needs from the parsers, the rewriter and the decoder. Nothing in the session
  depends on how they work; `SessionCodec` gives the real ones. */
  datatype Codec = Codec(
    request: string -> Result<RequestInfo, bool>,
    response: (string, string) -> Option<Rsp.Head>,
    clientHead: (Rsp.Head, bool) -> string,
    errorReply: (nat, string) -> string,
    feed: (CD.State, string) -> CD.State)

  /** A parsed request head and its rewritten form; a failure says whether something was too large. */
  datatype RequestInfo = RequestInfo(
    verb: string, host: string, target: string, length: nat, close: bool, upstreamHead: string)

  ghost predicate ValidCodec(codec: Codec) {
    && (forall head, close :: codec.clientHead(head, close) != "")
    && (forall code, reason :: codec.errorReply(code, reason) != "")
    && (forall st, a, b :: codec.feed(codec.feed(st, a), b) == codec.feed(st, a + b))
    && (forall st :: codec.feed(st, "") == st)
    && (forall bytes :: codec.request(bytes).Ok? ==> codec.request(bytes).value.upstreamHead != "")
  }

  /** The octets of the response, as far as it is known. */
  function PlanText(codec: Codec, plan: Plan): string {
    match plan
    case Nothing => ""
    case Relay(_, _, _, head, close, body, _) => codec.clientHead(head, close) + body
    case ErrorReply(code, reason) => codec.errorReply(code, reason)
  }

  /** A relayed head is what the response parser reads from the octets the upstream sent. */
  ghost predicate Sound(codec: Codec, plan: Plan)
    requires plan.Relay?
  {
    HeadOnly(plan.rawHead) && codec.response(plan.verb, plan.rawHead) == Some(plan.head)
  }

  /** The body relayed so far is a whole body of the head's mode. */
  ghost predicate BodyDone(codec: Codec, config: Config, plan: Plan)
    requires plan.Relay?
  {
    match plan.head.mode
    case NoBody => plan.body == ""
    case ContentLength(n) => |plan.body| == n
    case Chunked => codec.feed(CD.INITIAL, plan.body).phase == CD.Complete
    case CloseDelimited => |plan.body| <= config.maxResponseBody
  }

  /** A response that may be the last thing of a cycle. A relayed one has been ended: by its
  framing, or, close-delimited, by the upstream's end of stream. */
  ghost predicate Whole(codec: Codec, config: Config, plan: Plan) {
    match plan
    case Nothing => false
    case Relay(_, _, _, _, _, _, ended) => ended && Sound(codec, plan) && BodyDone(codec, config, plan)
    case ErrorReply(_, _) => true
  }

  // ---------------------------------------------------------------- the two sides of a request cycle

  datatype RequestSide = RequestSide(
    headBytes: string, verb: string, host: string, target: string, routeId: string, upstreamHead: string,
    bodyExpected: nat, bodyReceived: nat, bodyComplete: bool, paused: bool,
    routes: Option<nat>, selected: Option<Upstream>, attempted: seq<string>)

  const IDLE_REQUEST: RequestSide := RequestSide("", "", "", "", "", "", 0, 0, false, false, None, None, [])

  datatype ResponseSide = ResponseSide(
    headBytes: string, mode: Rsp.BodyMode, decoder: Option<CD.State>, bodyExpected: nat, bodyReceived: nat,
    bytesSent: nat, paused: bool, complete: bool, accessLogged: bool)

  const IDLE_RESPONSE: ResponseSide := ResponseSide("", Rsp.NoBody, None, 0, 0, 0, false, false, false)

  datatype Deadlines = Deadlines(timeouts: Timeouts, request: nat, phase: nat, lastIo: nat)

  /** What has been on the wires in this cycle: octets sent to the client and the response they
  belong to; octets sent to and received from the attached upstream; request body octets accepted.
  `noneHealthy`: the first lookup found the request's route without a healthy upstream. */
  datatype Wires = Wires(
    client: string, plan: Plan, upstream: string, heard: string, accepted: string, noneHealthy: bool)

  const SILENCE: Wires := Wires("", Nothing, "", "", "", false)

  /** The upstream whose response is relayed was asked exactly this request: its rewritten head
  and its body. Only after a first lookup without a healthy upstream was it asked nothing. */
  ghost predicate Asked(codec: Codec, w: Wires)
    requires w.plan.Relay?
  {
    var info := codec.request(w.plan.asked);
    && HeadOnly(w.plan.asked) && info.Ok? && w.plan.verb == info.value.verb && |w.accepted| == info.value.length
    && w.upstream == if w.noneHealthy then "" else info.value.upstreamHead + w.accepted
  }

  /** The cycle's response is settled; a relayed one is all its upstream sent. */
  ghost predicate Settled(codec: Codec, config: Config, w: Wires) {
    Whole(codec, config, w.plan) && (w.plan.Relay? ==> w.heard == w.plan.rawHead + w.plan.body && Asked(codec, w))
  }

  /** The client got exactly the settled response. */
  ghost predicate Delivered(codec: Codec, config: Config, w: Wires) {
    Settled(codec, config, w) && w.client == PlanText(codec, w.plan)
  }

  // ---------------------------------------------------------------- invariants

  /** What is sent plus what is queued is the planned response, always. */
  ghost predicate Ledger(codec: Codec, w: Wires, toClient: string, bytesSent: nat) {
    w.client + toClient == PlanText(codec, w.plan) && |w.client| == bytesSent
  }

  /** The route a request matched, in the table it started with. */
  function RouteOf(env: Environment, q: RequestSide): Option<string> {
    if q.routes.Some? then env.routeOf(q.routes.value, q.host, q.target) else None
  }

  /** At most two attempts, at different upstreams of the one route the request matched; and only a
  request that may be repeated, a GET or HEAD without a body, has two. */
  ghost predicate Attempts(env: Environment, q: RequestSide) {
    && |q.attempted| <= 2
    && (|q.attempted| == 2 ==>
          q.attempted[0] != q.attempted[1] && (q.verb == "GET" || q.verb == "HEAD") && q.bodyExpected == 0)
    && (RouteOf(env, q).Some? ==> RouteOf(env, q) == Some(q.routeId))
    && (q.selected.Some? ==>
          && q.attempted != [] && q.attempted[|q.attempted| - 1] == q.selected.value.id
          && RouteOf(env, q).Some? && env.belongs(q.routes.value, q.routeId, q.selected.value))
  }

  ghost predicate Parsed(codec: Codec, q: RequestSide) {
    var info := codec.request(q.headBytes);
    && HeadOnly(q.headBytes) && info.Ok? && q.verb == info.value.verb && q.host == info.value.host && q.target == info.value.target
    && q.bodyExpected == info.value.length
  }

  /** The head for upstreams is the rewritten head of a routed request, or was never made: that
  happens exactly when the first lookup found no healthy upstream. */
  ghost predicate HeadLedger(codec: Codec, env: Environment, q: RequestSide, noneHealthy: bool) {
    if RouteOf(env, q).Some? then
      Parsed(codec, q) && q.upstreamHead == if noneHealthy then "" else codec.request(q.headBytes).value.upstreamHead
    else
      q.upstreamHead == ""
  }

  /** An attached upstream gets exactly the rewritten head and the body octets accepted. */
  ghost predicate UpstreamLedger(q: RequestSide, w: Wires, toUpstream: string) {
    && q.selected.Some?
    && w.upstream + toUpstream == q.upstreamHead + w.accepted
    && |w.accepted| == q.bodyReceived && (w.noneHealthy ==> q.bodyExpected == 0)
  }

  ghost predicate BodyCount(q: RequestSide) {
    q.bodyReceived <= q.bodyExpected && (q.bodyComplete ==> q.bodyReceived == q.bodyExpected)
  }

  /** A relayed response that did not announce the end of the connection. */
  predicate KeptOpen(w: Wires) { w.plan.Relay? && !w.plan.close }

  /** The cycles after which the session went on. */
  ghost predicate AllDelivered(codec: Codec, config: Config, deliveries: seq<Wires>) {
    forall i | 0 <= i < |deliveries| :: Delivered(codec, config, deliveries[i]) && KeptOpen(deliveries[i])
  }

  /** One access record for each response handed over completely. */
  ghost predicate Records(
    codec: Codec, config: Config, count: nat, deliveries: seq<Wires>, logged: bool, w: Wires, toClient: string)
  {
    && count == |deliveries| + (if logged then 1 else 0)
    && AllDelivered(codec, config, deliveries)
    && (logged ==> toClient == "" && w.client != "" && Delivered(codec, config, w))
  }

  ghost predicate RequestUntouched(q: RequestSide, w: Wires, toUpstream: string) {
    q == IDLE_REQUEST.(headBytes := q.headBytes) && w.accepted == "" && !w.noneHealthy && toUpstream == ""
  }

  ghost predicate ResponsePending(r: ResponseSide, w: Wires, toClient: string) {
    && w.plan.Nothing? && w.client == "" && toClient == "" && r.decoder.None? && r.bodyReceived == 0
    && !r.paused && !r.complete && !r.accessLogged
  }

  predicate FlowControlled(config: Config, paused: bool, size: nat) {
    if paused then size > config.lowWatermark else size < config.highWatermark
  }

  /** Reading the request body is paused only above the low mark, and on only below the high one. */
  ghost predicate RequestFlow(config: Config, q: RequestSide, toUpstream: string, clientReadClosed: bool) {
    !q.bodyComplete ==>
      !clientReadClosed && q.bodyReceived < q.bodyExpected && FlowControlled(config, q.paused, |toUpstream|)
  }

  ghost predicate BodyProgress(codec: Codec, config: Config, r: ResponseSide, plan: Plan)
    requires plan.Relay?
  {
    match r.mode
    case NoBody => false
    case ContentLength(n) => r.bodyExpected == n && r.bodyReceived == |plan.body| < n
    case Chunked =>
      && r.decoder == Some(codec.feed(CD.INITIAL, plan.body))
      && r.decoder.value.phase !in {CD.Complete, CD.Error}
    case CloseDelimited => r.bodyReceived == |plan.body| <= config.maxResponseBody
  }

  ghost predicate Relaying(codec: Codec, r: ResponseSide, w: Wires) {
    && !r.complete && !r.accessLogged
    && w.plan.Relay? && !w.plan.ended && Sound(codec, w.plan) && w.heard == w.plan.rawHead + w.plan.body
    && w.plan.head.mode == r.mode && Asked(codec, w)
  }

  ghost predicate Finished(codec: Codec, config: Config, r: ResponseSide, w: Wires, close: bool) {
    && r.complete && !r.accessLogged
    && Settled(codec, config, w)
    && (w.plan.ErrorReply? ==> close)
  }

  function Least(a: nat, b: nat): nat { if a < b then a else b }

  predicate NoBlankLine(bytes: string) { Find(bytes, CRLF_CRLF, 0).None? }

  /** Everything up to and including the first blank line, and nothing after it. */
  predicate HeadOnly(bytes: string) { |bytes| >= 4 && Find(bytes, CRLF_CRLF, 0) == Some(|bytes| - 4) }

  // ---------------------------------------------------------------- steps of the invariants

  lemma HeadCut(bytes: string, end: nat)
    requires Find(bytes, CRLF_CRLF, 0) == Some(end)
    ensures end + 4 <= |bytes| && HeadOnly(bytes[..end + 4]) && bytes[..end + 4] + bytes[end + 4..] == bytes
  {
    hide Find, At;
    FindFits(bytes, CRLF_CRLF, 0);
    assert |CRLF_CRLF| == 4;
    var cut, more := bytes[..end + 4], bytes[end + 4..];
    assert bytes == cut + more;
    FindPrefix(cut, more, CRLF_CRLF, 0);
  }

  lemma IdleRequest(codec: Codec, env: Environment)
    ensures Attempts(env, IDLE_REQUEST) && HeadLedger(codec, env, IDLE_REQUEST, false) && BodyCount(IDLE_REQUEST)
    ensures RequestUntouched(IDLE_REQUEST, SILENCE, "") && NoBlankLine("")
  {
  }

  lemma IdleResponse(codec: Codec, mode: Rsp.BodyMode)
    ensures Ledger(codec, SILENCE, "", 0) && ResponsePending(IDLE_RESPONSE.(mode := mode), SILENCE, "")
  {
  }

  /** Without a pending access record, the records do not depend on the current response. */
  lemma RecordsUnlogged(
    codec: Codec, config: Config, count: nat, deliveries: seq<Wires>, w: Wires, toClient: string, w': Wires, toClient': string)
    requires Records(codec, config, count, deliveries, false, w, toClient)
    ensures Records(codec, config, count, deliveries, false, w', toClient')
  {
    hide AllDelivered;
  }

  /** A logged response becomes a delivery. */
  lemma RecordDelivery(codec: Codec, config: Config, count: nat, deliveries: seq<Wires>, w: Wires, toClient: string)
    requires Records(codec, config, count, deliveries, true, w, toClient) && KeptOpen(w)
    ensures Records(codec, config, count, deliveries + [w], false, SILENCE, "")
  {
    hide Delivered;
  }

  /** A finished response whose last octet is out may be logged. */
  lemma RecordLogged(
    codec: Codec, config: Config, count: nat, deliveries: seq<Wires>, r: ResponseSide, w: Wires, close: bool)
    requires ValidCodec(codec) && Finished(codec, config, r, w, close) && Ledger(codec, w, "", r.bytesSent)
    requires Records(codec, config, count, deliveries, false, w, "")
    ensures Records(codec, config, count + 1, deliveries, true, w, "")
  {
    hide AllDelivered;
    assert w.client + "" == w.client;
  }

  lemma SettledIgnoresClient(codec: Codec, config: Config, w: Wires, client: string)
    ensures Settled(codec, config, w.(client := client)) == Settled(codec, config, w)
    ensures w.plan.Relay? ==> Asked(codec, w.(client := client)) == Asked(codec, w)
  {
  }

  lemma SettledIsThere(codec: Codec, config: Config, w: Wires)
    requires Settled(codec, config, w)
    ensures w.plan.Relay? || w.plan.ErrorReply?
  {
  }

  /** A response of which nothing was sent may be replaced by another. */
  lemma LedgerReplace(codec: Codec, w: Wires, toClient: string, bytesSent: nat, w': Wires)
    requires Ledger(codec, w, toClient, bytesSent) && w.client == "" && w'.client == ""
    ensures Ledger(codec, w', PlanText(codec, w'.plan), bytesSent)
  {
  }

  /** A lookup that excludes the attempts so far gives another upstream of the same route. */
  lemma AttemptMore(env: Environment, q: RequestSide, upstream: Upstream, routeId: string)
    requires Attempts(env, q) && |q.attempted| < 2 && upstream.id !in q.attempted
    requires (q.verb == "GET" || q.verb == "HEAD") && q.bodyExpected == 0
    requires RouteOf(env, q) == Some(routeId) && env.belongs(q.routes.value, routeId, upstream)
    ensures Attempts(env, q.(selected := Some(upstream), attempted := q.attempted + [upstream.id]))
  {
  }

  /** What the first lookup makes of a request. */
  function Looked(q: RequestSide, info: RequestInfo, generation: nat, r: LookupResult): RequestSide {
    match r
    case NoRoute => q.(routes := Some(generation), routeId := "")
    case NoHealthyUpstream(id) => q.(routes := Some(generation), routeId := id)
    case Matched(id, upstream) =>
      q.(routes := Some(generation), routeId := id, selected := Some(upstream), attempted := [upstream.id],
         upstreamHead := info.upstreamHead)
  }

  lemma FirstLookup(codec: Codec, env: Environment, q: RequestSide, info: RequestInfo, generation: nat, r: LookupResult)
    requires q.attempted == [] && q.selected.None? && q.upstreamHead == "" && BodyCount(q)
    requires codec.request(q.headBytes) == Ok(info) && Parsed(codec, q)
    requires match r
             case NoRoute => env.routeOf(generation, q.host, q.target).None?
             case NoHealthyUpstream(id) => env.routeOf(generation, q.host, q.target) == Some(id)
             case Matched(id, upstream) =>
               env.routeOf(generation, q.host, q.target) == Some(id) && env.belongs(generation, id, upstream)
    ensures var q' := Looked(q, info, generation, r);
            && Attempts(env, q') && HeadLedger(codec, env, q', r.NoHealthyUpstream?) && BodyCount(q')
            && (r.NoRoute? <==> RouteOf(env, q').None?)
  {
  }

  lemma HeadLedgerAttempt(codec: Codec, env: Environment, q: RequestSide, noneHealthy: bool,
                          selected: Option<Upstream>, attempted: seq<string>)
    requires HeadLedger(codec, env, q, noneHealthy)
    ensures HeadLedger(codec, env, q.(selected := selected, attempted := attempted), noneHealthy)
  {
  }

  /** Pausing and resuming is the only thing backpressure changes. */
  lemma PausedIrrelevant(codec: Codec, env: Environment, q: RequestSide, paused: bool, noneHealthy: bool)
    ensures Attempts(env, q.(paused := paused)) == Attempts(env, q)
    ensures HeadLedger(codec, env, q.(paused := paused), noneHealthy) == HeadLedger(codec, env, q, noneHealthy)
    ensures BodyCount(q.(paused := paused)) == BodyCount(q)
  {
  }

  lemma UpstreamLedgerSend(q: RequestSide, w: Wires, toUpstream: string, count: nat, paused: bool)
    requires UpstreamLedger(q, w, toUpstream) && count <= |toUpstream|
    ensures UpstreamLedger(q.(paused := paused), w.(upstream := w.upstream + toUpstream[..count]), toUpstream[count..])
  {
    assert w.upstream + toUpstream == (w.upstream + toUpstream[..count]) + toUpstream[count..];
  }

  /** Octets leave the queue in order: what is sent plus what is queued stays the same. */
  lemma LedgerSend(codec: Codec, w: Wires, toClient: string, bytesSent: nat, count: nat)
    requires Ledger(codec, w, toClient, bytesSent) && count <= |toClient|
    ensures Ledger(codec, w.(client := w.client + toClient[..count]), toClient[count..], bytesSent + count)
  {
    assert w.client + toClient == (w.client + toClient[..count]) + toClient[count..];
  }

  // ---------------------------------------------------------------- what the deadline argument sees

  /** A head that matched a route. */
  datatype Routed = Routed(head: string, routeId: string)

  function RoutedHead(env: Environment, q: RequestSide): Option<Routed> {
    var route := RouteOf(env, q);
    if route.Some? then Some(Routed(q.headBytes, route.value)) else None
  }

  datatype Log = Log(
    deliveries: seq<Wires>, wire: string, route: Option<Routed>, noneHealthy: bool, attempted: seq<string>,
    bodyDone: bool, last: bool, deadline: nat, ticks: nat, idle: bool, rank: nat)

  /** The same request cycle goes on: nothing sent is taken back; a route once found stays; no
  attempt and no body is forgotten, and neither is that it is the last. */
  predicate Continues(a: Log, b: Log) {
    && b.deliveries == a.deliveries && a.wire <= b.wire && a.attempted <= b.attempted
    && (a.route.Some? ==> b.route == a.route && b.noneHealthy == a.noneHealthy)
    && (a.bodyDone ==> b.bodyDone) && (a.last ==> b.last) && b.deadline == a.deadline && b.ticks == a.ticks
  }

  /** One call: the cycle goes on without moving away from its end, or it ended and another began.
  An idle session may start the clock of its next request. */
  predicate Follows(a: Log, b: Log) {
    || (a.deliveries < b.deliveries && a.wire <= b.deliveries[|a.deliveries|].client && !a.last && b.ticks == 0)
    || (Continues(a, b.(deadline := a.deadline, ticks := a.ticks)) && b.rank <= a.rank
        && (b.idle ==> a.idle)
        && ((b.deadline == a.deadline && b.ticks == a.ticks) || (a.idle && b.ticks == 0)))
  }

  lemma FollowsTransitive(a: Log, b: Log, c: Log)
    requires Follows(a, b) && Follows(b, c)
    ensures Follows(a, c)
  {
  }

  lemma ContinuesItself(a: Log)
    ensures Continues(a, a)
  {
  }

  lemma ContinuesTransitive(a: Log, b: Log, c: Log)
    requires Continues(a, b) && Continues(b, c)
    ensures Continues(a, c) && |a.attempted| <= |b.attempted| <= |c.attempted|
  {
  }

  lemma ContinuesTicking(a: Log, counted: Log, b: Log)
    requires counted == a.(ticks := counted.ticks) && Continues(counted, b)
    ensures Continues(a, b.(ticks := a.ticks)) && b.ticks == counted.ticks
  {
  }

  /** A cycle that went on has the attempts it had, or more. */
  lemma ContinuesAttempts(a: Log, b: Log)
    requires Continues(a, b)
    ensures a.attempted == b.attempted || |a.attempted| < |b.attempted|
    ensures a.bodyDone ==> b.bodyDone
  {
  }

  lemma FollowsItself(a: Log)
    ensures Follows(a, a)
  {
  }

  /** A cycle that is the last goes on, and stays the last. */
  lemma FollowsLast(a: Log, b: Log)
    requires Follows(a, b) && a.last
    ensures b.last && b.deliveries == a.deliveries
  {
  }

  /** Deliveries and, within a cycle, attempts only grow. */
  lemma FollowsGrows(a: Log, b: Log)
    requires Follows(a, b)
    ensures a.deliveries <= b.deliveries && (a.deliveries == b.deliveries ==> a.attempted <= b.attempted)
  {
  }

  /** Each expired tick brings the session one rank nearer to its end. */
  predicate TickRule(log: Log) {
    log.rank == 0 || log.rank + log.ticks <= 3
  }

  /** Everything the client has been sent, over all cycles of the connection. */
  function Stream(log: Log): string { Joined(log.deliveries) + log.wire }

  function Joined(deliveries: seq<Wires>): string {
    if deliveries == [] then "" else Joined(deliveries[..|deliveries| - 1]) + deliveries[|deliveries| - 1].client
  }

  lemma {:induction false} JoinedGrows(a: seq<Wires>, b: seq<Wires>)
    requires a < b
    ensures Joined(a) + b[|a|].client <= Joined(b)
  {
    if |b| == |a| + 1 {
      assert b[..|b| - 1] == a;
    } else {
      JoinedGrows(a, b[..|b| - 1]);
    }
  }

  /** One event or one tick of the timer. */
  predicate Step(a: Log, b: Log) {
    Follows(a, b) || Continues(a, b.(ticks := a.ticks))
  }

  /** What any number of events and ticks keeps: the request cycle goes on, or, unless it was the
  last, it ended with its response sent. */
  predicate Leads(a: Log, b: Log) {
    || (a.deliveries < b.deliveries && a.wire <= b.deliveries[|a.deliveries|].client && !a.last)
    || Continues(a, b.(deadline := a.deadline, ticks := a.ticks))
  }

  lemma LeadsTransitive(a: Log, b: Log, c: Log)
    requires Leads(a, b) && Leads(b, c)
    ensures Leads(a, c)
  {
  }

  /** Whatever happens, octets sent stay sent and others only follow them. */
  lemma StreamGrows(a: Log, b: Log)
    requires Leads(a, b)
    ensures a.deliveries <= b.deliveries && Stream(a) <= Stream(b)
  {
    if a.deliveries < b.deliveries {
      JoinedGrows(a.deliveries, b.deliveries);
    }
  }

  /** Over a whole run, events and ticks in any order. */
  lemma {:induction false} RunGrows(logs: seq<Log>)
    requires logs != [] && forall i | 0 < i < |logs| :: Step(logs[i - 1], logs[i])
    ensures Leads(logs[0], logs[|logs| - 1]) && Stream(logs[0]) <= Stream(logs[|logs| - 1])
    decreases |logs|
  {
    hide Follows, Continues, Stream;
    var n := |logs| - 1;
    if n == 0 {
      ContinuesItself(logs[0]);
    } else {
      RunGrows(logs[..n]);
      StepLeads(logs[n - 1], logs[n]);
      LeadsTransitive(logs[0], logs[n - 1], logs[n]);
    }
    StreamGrows(logs[0], logs[n]);
  }

  lemma StepLeads(a: Log, b: Log)
    requires Step(a, b)
    ensures Leads(a, b)
  {
  }

  // ---------------------------------------------------------------- steps of a relayed response

  lemma RelayGrows(codec: Codec, w: Wires, toClient: string, bytesSent: nat, bytes: string)
    requires Ledger(codec, w, toClient, bytesSent) && w.plan.Relay?
    ensures Ledger(codec, w.(plan := w.plan.(body := w.plan.body + bytes)), toClient + bytes, bytesSent)
  {
    var head := codec.clientHead(w.plan.head, w.plan.close);
    assert head + (w.plan.body + bytes) == head + w.plan.body + bytes;
    assert w.client + (toClient + bytes) == w.client + toClient + bytes;
  }

  /** Octets of the body the session accepts: progress, and completion exactly when it is whole. */
  lemma BodyGrows(codec: Codec, config: Config, r: ResponseSide, plan: Plan, bytes: string, r': ResponseSide)
    requires ValidCodec(codec) && plan.Relay? && plan.head.mode == r.mode && BodyProgress(codec, config, r, plan)
    requires r'.mode == r.mode && r'.bodyExpected == r.bodyExpected && BodyAccepted(codec, config, r, bytes, r')
    ensures var plan' := plan.(body := plan.body + bytes);
            if BodyAtEnd(r') then BodyDone(codec, config, plan') else BodyProgress(codec, config, r', plan')
  {
    if r.mode == Rsp.Chunked {
      assert codec.feed(codec.feed(CD.INITIAL, plan.body), bytes) == codec.feed(CD.INITIAL, plan.body + bytes);
    }
  }

  lemma FeedNothing(codec: Codec)
    requires ValidCodec(codec)
    ensures codec.feed(CD.INITIAL, "") == CD.INITIAL
  {
  }

  /** An upstream that has taken everything queued has been asked this request. */
  lemma RequestDelivered(codec: Codec, env: Environment, q: RequestSide, w: Wires, plan: Plan)
    requires Attempts(env, q) && HeadLedger(codec, env, q, w.noneHealthy) && BodyCount(q)
    requires UpstreamLedger(q, w, "") && q.bodyComplete
    requires plan.Relay? && plan.asked == q.headBytes && plan.verb == q.verb
    ensures forall heard :: Asked(codec, w.(plan := plan, heard := heard))
  {
    assert w.upstream + "" == w.upstream;
  }

  lemma UpstreamLedgerIgnores(q: RequestSide, w: Wires, plan: Plan, toUpstream: string)
    ensures UpstreamLedger(q, w.(plan := plan), toUpstream) == UpstreamLedger(q, w, toUpstream)
  {
  }

  lemma LedgerEnded(codec: Codec, w: Wires, toClient: string, bytesSent: nat)
    requires w.plan.Relay?
    ensures Ledger(codec, w.(plan := w.plan.(ended := true)), toClient, bytesSent) == Ledger(codec, w, toClient, bytesSent)
  {
  }

  lemma LedgerIgnores(codec: Codec, w: Wires, toClient: string, bytesSent: nat, accepted: string)
    ensures Ledger(codec, w.(accepted := accepted), toClient, bytesSent) == Ledger(codec, w, toClient, bytesSent)
  {
  }

  lemma EndedKeepsBody(codec: Codec, config: Config, plan: Plan)
    requires plan.Relay?
    ensures Sound(codec, plan.(ended := true)) == Sound(codec, plan)
    ensures BodyDone(codec, config, plan.(ended := true)) == BodyDone(codec, config, plan)
  {
  }

  lemma GrownKeepsHead(codec: Codec, plan: Plan, bytes: string)
    requires plan.Relay?
    ensures Sound(codec, plan.(body := plan.body + bytes)) == Sound(codec, plan)
  {
  }

  /** The checks of `append_response_body` in each framing. */
  predicate BodyFits(codec: Codec, config: Config, r: ResponseSide, bytes: string) {
    match r.mode
    case NoBody => false
    case ContentLength(_) => r.bodyReceived + |bytes| <= r.bodyExpected
    case Chunked => r.decoder.Some? && codec.feed(r.decoder.value, bytes).phase != CD.Error
    case CloseDelimited => r.bodyReceived + |bytes| <= config.maxResponseBody
  }

  /** The checks succeeded, and this is what they record. */
  predicate BodyAccepted(codec: Codec, config: Config, r: ResponseSide, bytes: string, r': ResponseSide) {
    && BodyFits(codec, config, r, bytes)
    && if r.mode.Chunked? then r'.decoder == Some(codec.feed(r.decoder.value, bytes))
       else r'.bodyReceived == r.bodyReceived + |bytes|
  }

  predicate BodyAtEnd(r: ResponseSide) {
    match r.mode
    case NoBody => true
    case ContentLength(_) => r.bodyReceived == r.bodyExpected
    case Chunked => r.decoder.Some? && r.decoder.value.phase == CD.Complete
    case CloseDelimited => false
  }

  // ---------------------------------------------------------------- steps of a request

  lemma HeadLedgerBody(codec: Codec, env: Environment, q: RequestSide, received: nat, complete: bool, noneHealthy: bool)
    ensures var q' := q.(bodyReceived := received, bodyComplete := complete);
            && HeadLedger(codec, env, q', noneHealthy) == HeadLedger(codec, env, q, noneHealthy)
            && Attempts(env, q') == Attempts(env, q)
  {
  }

  lemma UpstreamLedgerPause(q: RequestSide, w: Wires, toUpstream: string)
    requires UpstreamLedger(q, w, toUpstream)
    ensures forall paused :: UpstreamLedger(q.(paused := paused), w, toUpstream)
  {
  }

  lemma UpstreamLedgerGrows(q: RequestSide, w: Wires, toUpstream: string, bytes: string, complete: bool)
    requires UpstreamLedger(q, w, toUpstream)
    ensures UpstreamLedger(q.(bodyReceived := q.bodyReceived + |bytes|, bodyComplete := complete),
                           w.(accepted := w.accepted + bytes), toUpstream + bytes)
  {
    assert w.upstream + (toUpstream + bytes) == w.upstream + toUpstream + bytes;
    assert q.upstreamHead + (w.accepted + bytes) == q.upstreamHead + w.accepted + bytes;
  }
}
