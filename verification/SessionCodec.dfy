/** The parsers, rewriters and decoder a session works with, and what a response delivered through
them means to the client and to the upstream. */
module SessionCodec {
  import opened Text
  import opened HeaderFields
  import opened MessageText
  import opened Rewriting
  import opened SessionTypes
  import CD = ChunkedDecoder
  import CG = ChunkGrammar
  import CB = ChunkBuffering
  import Req = RequestParsing
  import ToUpstream = RequestRewriting
  import Rsp = ResponseParsing
  import ToClient = ResponseRewriting
  import RF = RewrittenFields
  import IncrementalResponse

  const MAX_CHUNK_LINE: nat := 8 * 1024

  // ---------------------------------------------------------------- the request head

  predicate TooLarge(e: Req.ParseError) { e == Req.HeaderTooLarge || e == Req.BodyTooLarge }

  predicate ListsToken(value: Option<string>, token: string) {
    value.Some? && Lower(token) in Tokens(value.value)
  }

  function InfoOf(head: Req.Head, client: string): Result<RequestInfo, bool> {
    var host := HeaderValue(head.headers, "Host");
    if host.None? then Err(false)
    else Ok(RequestInfo(head.line.verb, host.value, head.line.target, head.contentLength,
                        ListsToken(HeaderValue(head.headers, "Connection"), "close"),
                        ToUpstream.UpstreamHead(head, client)))
  }

  function RequestOf(limits: Req.Limits, client: string, bytes: string): Result<RequestInfo, bool> {
    match Req.Parse(limits, bytes)
    case Failed(e) => Err(TooLarge(e))
    case AwaitingHead => Err(false)
    case AwaitingBody(head) => InfoOf(head, client)
    case Complete(head) => InfoOf(head, client)
  }

  /** `header_contains_token`: the comma loop over a header value. */
  method HeaderContainsToken(value: Option<string>, expected: string) returns (found: bool)
    requires Trim(expected) == expected && expected != ""
    ensures found == ListsToken(value, expected)
  {
    hide Find, Trim, Lower;
    if value.None? {
      return false;
    }
    var remaining := value.value;
    while remaining != ""
      invariant Lower(expected) in Tokens(remaining) <==> Lower(expected) in Tokens(value.value)
      decreases |remaining|
    {
      var comma := Find(remaining, ",", 0);
      var token := Trim(if comma.None? then remaining else remaining[..comma.value]);
      if EqualsIgnoreCase(token, expected) {
        LowerKeepsEmpty(token, expected);
        return true;
      }
      if comma.None? {
        break;
      }
      remaining := remaining[comma.value + 1..];
    }
    return false;
  }

  lemma LowerKeepsEmpty(a: string, b: string)
    requires EqualsIgnoreCase(a, b) && b != ""
    ensures a != "" && Lower(a) == Lower(b)
  {
  }

  lemma CloseIsTrimmed()
    ensures Trim("close") == "close"
  {
  }

  method ParseRequestHead(limits: Req.Limits, client: string, bytes: string) returns (r: Result<RequestInfo, bool>)
    requires Req.ValidLimits(limits) && |bytes| <= limits.maxHeader
    ensures r == RequestOf(limits, client, bytes)
  {
    hide Req.Parse, HeaderValue, ListsToken, ToUpstream.WellFormedHead, ToUpstream.UpstreamHead, Find, Lower;
    hide Req.ParseRequestLine, HeaderFields.ParseBlock, Req.Validate, Trim, TrimLeft, TrimRight;
    var parser := new Req.RequestParser(limits.maxHeader, limits.maxBody);
    parser.Consume(bytes);
    assert "" + bytes == bytes;
    ToUpstream.AcceptedHead(limits, bytes);
    if parser.status == Req.Error || parser.headerBytes == 0 {
      return Err(parser.error.Some? && TooLarge(parser.error.value));
    }
    var host := HeaderValue(parser.headers, "Host");
    if host.None? {
      return Err(false);
    }
    CloseIsTrimmed();
    var close := HeaderContainsToken(HeaderValue(parser.headers, "Connection"), "close");
    var head := Req.Head(parser.line, parser.headers, parser.headerBytes, parser.contentLength);
    var rewritten := ToUpstream.RewriteRequestHeadForUpstream(head, client);
    r := Ok(RequestInfo(parser.line.verb, host.value, parser.line.target, parser.contentLength, close, rewritten));
  }

  // ---------------------------------------------------------------- the response head

  function ResponseOf(setup: Rsp.Setup, bytes: string): Option<Rsp.Head> {
    match Rsp.Parse(setup, bytes)
    case AwaitingBody(head, _) => Some(head)
    case Complete(head, _, _, _) => Some(head)
    case _ => None
  }

  method ParseResponseHead(setup: Rsp.Setup, bytes: string) returns (r: Option<Rsp.Head>)
    requires Rsp.ValidSetup(setup) && |bytes| <= setup.maxHeader
    ensures r == ResponseOf(setup, bytes)
  {
    hide Rsp.Parse, Find, Rsp.ParseStatusLine, Rsp.Run, Rsp.ParseHead;
    var parser := new IncrementalResponse.ResponseParser(setup.verb, setup.maxHeader, setup.maxBody);
    parser.Consume(bytes);
    assert "" + bytes == bytes;
    Rsp.HeadOf(setup, bytes);
    if parser.status == IncrementalResponse.Error || parser.headerBytes == 0 {
      return None;
    }
    r := Some(Rsp.Head(parser.line, parser.headers, parser.headerBytes, parser.bodyMode));
  }

  // ---------------------------------------------------------------- error replies

  function ErrorBody(code: nat, reason: string): string { Decimal(code) + " " + reason + "\n" }

  function ErrorFields(body: string): seq<HeaderField> {
    [HeaderField("Content-Type", "text/plain"), HeaderField("Content-Length", Decimal(|body|)),
     HeaderField("Connection", "close")]
  }

  function ErrorHead(code: nat, reason: string): string {
    HeadText(ToClient.StartLine(Rsp.StatusLine("HTTP/1.1", code, reason)), ErrorFields(ErrorBody(code, reason)))
  }

  function ErrorText(code: nat, reason: string): string { ErrorHead(code, reason) + ErrorBody(code, reason) }

  // ---------------------------------------------------------------- the codec

  function ChunkLimits(config: Config): CD.Limits { CD.Limits(config.maxResponseBody, MAX_CHUNK_LINE) }

  function RequestLimits(config: Config): Req.Limits { Req.Limits(config.maxHeader, config.maxRequestBody) }

  function ResponseSetup(config: Config, verb: string): Rsp.Setup {
    Rsp.Setup(verb, config.maxHeader, config.maxResponseBody)
  }

  function CodecOf(config: Config, client: string): Codec {
    Codec(bytes => RequestOf(RequestLimits(config), client, bytes),
          (verb, bytes) => ResponseOf(ResponseSetup(config, verb), bytes),
          (head: Rsp.Head, close) => ToClient.ClientHead(head, ToClient.RelayFraming(head), close),
          ErrorText,
          (st, bytes) => CD.Feed(ChunkLimits(config), st, bytes))
  }

  lemma HeadTextNotEmpty(startLine: string, fields: seq<HeaderField>)
    ensures HeadText(startLine, fields) != ""
  {
  }

  lemma CodecIsValid(config: Config, client: string)
    ensures ValidCodec(CodecOf(config, client))
  {
    hide HeadText, CD.Feed, Req.Parse, HeaderValue;
    var codec := CodecOf(config, client);
    forall st, a, b ensures codec.feed(codec.feed(st, a), b) == codec.feed(st, a + b) {
      CD.FeedAppend(ChunkLimits(config), st, a, b);
    }
    forall st ensures codec.feed(st, "") == st {
      CD.FeedNothing(ChunkLimits(config), st);
    }
    forall startLine, fields ensures HeadText(startLine, fields) != "" {
      HeadTextNotEmpty(startLine, fields);
    }
  }

  // ---------------------------------------------------------------- what a delivery means

  /** What the session took for the head is what the parser finds when more has arrived. */
  lemma HeardHead(setup: Rsp.Setup, raw: string, rest: string, head: Rsp.Head)
    requires HeadOnly(raw) && ResponseOf(setup, raw) == Some(head)
    ensures Rsp.HasHead(setup, raw + rest, head) && head.headerBytes == |raw|
  {
    hide Rsp.Parse, Rsp.ParseHead, Rsp.ParseStatusLine, Find;
    Rsp.HeadOf(setup, raw);
    Rsp.HeadAppend(setup, raw, rest, head);
  }

  /** `octets` is a head with this meaning, followed by exactly this body. */
  ghost predicate Carries(setup: Rsp.Setup, octets: string, line: Rsp.StatusLine, mode: Rsp.BodyMode, body: string) {
    exists head: Rsp.Head ::
      && Rsp.HasHead(setup, octets, head) && head.line == line && head.mode == mode
      && head.headerBytes <= |octets| && octets[head.headerBytes..] == body
  }

  /** A body as RFC 9112, sections 6 and 7.1, delimits it. */
  ghost predicate WholeBody(config: Config, mode: Rsp.BodyMode, body: string) {
    match mode
    case NoBody => body == ""
    case ContentLength(n) => |body| == n
    case Chunked => exists n: nat :: n <= config.maxResponseBody && CG.IsChunkedBody(ChunkLimits(config), body, n)
    case CloseDelimited => |body| <= config.maxResponseBody
  }

  lemma WholeBodyOf(config: Config, client: string, plan: Plan)
    requires plan.Relay? && BodyDone(CodecOf(config, client), config, plan)
    ensures WholeBody(config, plan.head.mode, plan.body)
  {
    hide CD.Feed, CG.IsChunkedBody;
    if plan.head.mode == Rsp.Chunked {
      var st := CD.Feed(ChunkLimits(config), CD.INITIAL, plan.body);
      CG.DecoderExactness(ChunkLimits(config), plan.body, st.decoded);
    }
  }

  /** A client with room for the head. */
  predicate Roomy(config: Config, client: string, w: Wires, peer: Rsp.Setup)
    requires w.plan.Relay?
  {
    && Rsp.ValidSetup(peer) && peer.verb == w.plan.verb && config.maxResponseBody <= peer.maxBody
    && |CodecOf(config, client).clientHead(w.plan.head, w.plan.close)| <= peer.maxHeader
  }

  /** The central claim: what the client of a relayed response received means the same as what
  the upstream sent: same status line, same body framing, the same octets of a whole body, and
  nothing else on either connection. */
  lemma RelayPreservesMeaning(config: Config, client: string, w: Wires, peer: Rsp.Setup)
    requires ValidConfig(config) && w.plan.Relay? && Roomy(config, client, w, peer)
    requires Delivered(CodecOf(config, client), config, w)
    ensures Carries(ResponseSetup(config, w.plan.verb), w.heard, w.plan.head.line, w.plan.head.mode, w.plan.body)
    ensures Carries(peer, w.client, w.plan.head.line, w.plan.head.mode, w.plan.body)
    ensures WholeBody(config, w.plan.head.mode, w.plan.body)
  {
    hide Rsp.HasHead, Rsp.Parse, ToClient.ClientHead, ToClient.RelayFraming, ToClient.ClientFields, WholeBody, Asked, Find;
    var setup, plan := ResponseSetup(config, w.plan.verb), w.plan;
    var text := ToClient.ClientHead(plan.head, ToClient.RelayFraming(plan.head), plan.close);
    HeardHead(setup, plan.rawHead, plan.body, plan.head);
    assert w.heard[|plan.rawHead|..] == plan.body;
    ToClient.RelayedHeadRoundTrip(setup, plan.rawHead, peer, plan.close, plan.body);
    var fields := ToClient.ClientFields(plan.head, ToClient.RelayFraming(plan.head), plan.close);
    var head := Rsp.Head(plan.head.line, fields, |text|, plan.head.mode);
    assert Rsp.HasHead(peer, w.client, head) && w.client[head.headerBytes..] == plan.body;
    WholeBodyOf(config, client, plan);
  }

  /** What the client's parser makes of all it was sent, the close of the connection included. */
  function ClientReads(peer: Rsp.Setup, octets: string): Rsp.Progress {
    Rsp.Ended(peer, Rsp.Consumed(peer, Rsp.INITIAL, octets)).progress
  }

  /** One complete response and no octet after it, with this meaning. */
  predicate ReadsOne(peer: Rsp.Setup, octets: string, line: Rsp.StatusLine, mode: Rsp.BodyMode, body: string) {
    var p := ClientReads(peer, octets);
    p.Complete? && p.head.line == line && p.head.mode == mode && p.body == body && p.messageBytes == |octets|
  }

  /** A client that buffers its responses has room for the chunked octets, and accepts them. */
  ghost predicate ClientDecodes(config: Config, peer: Rsp.Setup, w: Wires)
    requires w.plan.Relay?
  {
    |w.client| <= peer.maxHeader + peer.maxBody && CB.BufferedText(peer, ChunkLimits(config), w.plan.body)
  }

  /** A client that buffers sees one complete response and nothing after it: with a length or
  without a body, at once; close-delimited, when the connection closes; chunked, exactly if it has
  room for the chunked octets and its stricter reading accepts them, and otherwise it refuses. */
  lemma ClientSeesOneResponse(config: Config, client: string, w: Wires, peer: Rsp.Setup)
    requires ValidConfig(config) && w.plan.Relay? && Roomy(config, client, w, peer)
    requires Delivered(CodecOf(config, client), config, w)
    ensures var head, now := w.plan.head, Rsp.Consumed(peer, Rsp.INITIAL, w.client).progress;
            if head.mode == Rsp.Chunked then
              if ClientDecodes(config, peer, w) then
                && now == ClientReads(peer, w.client) && now.Complete?
                && ReadsOne(peer, w.client, head.line, head.mode, now.body)
                && CB.BufferedAs(peer, ChunkLimits(config), w.plan.body, now.body)
              else now.Failed?
            else
              && ReadsOne(peer, w.client, head.line, head.mode, w.plan.body)
              && (head.mode != Rsp.CloseDelimited ==> now == ClientReads(peer, w.client))
  {
    hide Rsp.HasHead, Rsp.Parse, Delivered, CodecOf, Rsp.Ended, Rsp.Consumed, CB.BufferedText, CB.BufferedAs, WholeBody;
    RelayPreservesMeaning(config, client, w, peer);
    var head :| Rsp.HasHead(peer, w.client, head) && head.line == w.plan.head.line && head.mode == w.plan.head.mode
                && head.headerBytes <= |w.client| && w.client[head.headerBytes..] == w.plan.body;
    if head.mode == Rsp.Chunked {
      DeliveredChunks(config, client, w);
      ChunkedIsRead(peer, ChunkLimits(config), w.client, head);
    } else {
      WithinBody(config, peer, head.mode, w.plan.body);
      OtherIsRead(peer, w.client, head);
    }
  }

  lemma WithinBody(config: Config, peer: Rsp.Setup, mode: Rsp.BodyMode, body: string)
    requires WholeBody(config, mode, body) && config.maxResponseBody <= peer.maxBody && mode != Rsp.Chunked
    ensures match mode
            case NoBody => body == ""
            case ContentLength(n) => |body| == n
            case _ => |body| <= peer.maxBody
  {
  }

  lemma OtherIsRead(peer: Rsp.Setup, octets: string, head: Rsp.Head)
    requires Rsp.HasHead(peer, octets, head) && head.mode != Rsp.Chunked && head.headerBytes <= |octets|
    requires var body := octets[head.headerBytes..];
             match head.mode
             case NoBody => body == ""
             case ContentLength(n) => |body| == n
             case _ => |body| <= peer.maxBody
    ensures ReadsOne(peer, octets, head.line, head.mode, octets[head.headerBytes..])
    ensures head.mode != Rsp.CloseDelimited ==> Rsp.Consumed(peer, Rsp.INITIAL, octets).progress == ClientReads(peer, octets)
  {
    hide Rsp.HasHead, Rsp.Parse;
    HeadWithin(peer, octets, head);
    Rsp.ParseWithHead(peer, octets, head);
    assert "" + octets == octets && octets[head.headerBytes..|octets|] == octets[head.headerBytes..];
  }

  lemma ChunkedIsRead(peer: Rsp.Setup, limits: CD.Limits, octets: string, head: Rsp.Head)
    requires Rsp.ValidSetup(peer) && Rsp.HasHead(peer, octets, head) && head.mode == Rsp.Chunked && head.headerBytes <= |octets|
    requires CD.Feed(limits, CD.INITIAL, octets[head.headerBytes..]).phase == CD.Complete
    ensures var now, text := Rsp.Consumed(peer, Rsp.INITIAL, octets).progress, octets[head.headerBytes..];
            if |octets| <= peer.maxHeader + peer.maxBody && CB.BufferedText(peer, limits, text) then
              && now == ClientReads(peer, octets) && now.Complete? && ReadsOne(peer, octets, head.line, head.mode, now.body)
              && CB.BufferedAs(peer, limits, text, now.body)
            else now.Failed?
  {
    hide Rsp.HasHead, Rsp.Parse, CD.Feed, CB.BufferedText, CB.BufferedAs;
    HeadWithin(peer, octets, head);
    assert "" + octets == octets && octets[head.headerBytes..|octets|] == octets[head.headerBytes..];
    if |octets| <= peer.maxHeader + peer.maxBody {
      CB.DoneTogether(peer, limits, octets, head, |octets|);
    }
  }

  lemma HeadWithin(setup: Rsp.Setup, octets: string, head: Rsp.Head)
    requires Rsp.HasHead(setup, octets, head)
    ensures 0 < head.headerBytes <= setup.maxHeader && (head.mode.ContentLength? ==> head.mode.length <= setup.maxBody)
  {
    hide Find, Rsp.ParseStatusLine, HeaderFields.ParseBlock, Rsp.NoteHeaders;
  }

  lemma DeliveredChunks(config: Config, client: string, w: Wires)
    requires w.plan.Relay? && Delivered(CodecOf(config, client), config, w) && w.plan.head.mode == Rsp.Chunked
    ensures CD.Feed(ChunkLimits(config), CD.INITIAL, w.plan.body).phase == CD.Complete
  {
    hide CD.Feed, Sound, Asked, PlanText;
  }

  /** What the client was told of the connection: one Connection field, which lists `close` exactly
  if the session had decided to close after this response. */
  lemma ClientIsTold(config: Config, client: string, w: Wires, peer: Rsp.Setup)
    requires ValidConfig(config) && w.plan.Relay? && Roomy(config, client, w, peer)
    requires Delivered(CodecOf(config, client), config, w)
    ensures exists head: Rsp.Head ::
              && Rsp.HasHead(peer, w.client, head)
              && RF.OnlyOne(head.headers, "Connection", if w.plan.close then "close" else "keep-alive")
              && (ListsToken(HeaderValue(head.headers, "Connection"), "close") <==> w.plan.close)
  {
    hide Rsp.HasHead, Rsp.Parse, ToClient.ClientHead, ToClient.ClientFields, Asked, Find, HeaderValue, RF.OnlyOne, Tokens;
    var setup, plan := ResponseSetup(config, w.plan.verb), w.plan;
    var framing := ToClient.RelayFraming(plan.head);
    var text := ToClient.ClientHead(plan.head, framing, plan.close);
    HeardHead(setup, plan.rawHead, plan.body, plan.head);
    ToClient.RelayedHeadRoundTrip(setup, plan.rawHead, peer, plan.close, plan.body);
    var fields := ToClient.ClientFields(plan.head, framing, plan.close);
    RF.ClientReads(plan.head, framing, plan.close);
    assert Lower("close") == "close";
    assert Rsp.HasHead(peer, w.client, Rsp.Head(plan.head.line, fields, |text|, plan.head.mode));
  }

  /** An error reply tells the client that the connection closes. */
  lemma ErrorReplyTellsClose(code: nat, reason: string)
    ensures var fields := ErrorFields(ErrorBody(code, reason));
            ListsToken(HeaderValue(fields, "Connection"), "close")
  {
    hide Decimal, HeaderValue, ListsToken;
    LastLists(ErrorFields(ErrorBody(code, reason)));
  }

  lemma LastLists(fields: seq<HeaderField>)
    requires |fields| == 3 && fields[0].name == "Content-Type" && fields[1].name == "Content-Length"
    requires fields[2] == HeaderField("Connection", "close")
    ensures ListsToken(HeaderValue(fields, "Connection"), "close")
  {
    hide HeaderValue, ListsToken, EqualsIgnoreCase, RF.OnlyOne;
    OnlyThird(fields);
    RF.OnlyOneIsTheValue(fields, "Connection", "close");
    CloseListed();
  }

  lemma OnlyThird(fields: seq<HeaderField>)
    requires |fields| == 3 && fields[0].name == "Content-Type" && fields[1].name == "Content-Length"
    requires fields[2] == HeaderField("Connection", "close")
    ensures RF.OnlyOne(fields, "Connection", "close")
  {
    hide EqualsIgnoreCase;
    RF.SameName("Connection");
    NotConnection();
    assert Named(fields[2], "Connection");
  }

  lemma CloseListed()
    ensures ListsToken(Some("close"), "close")
  {
    hide Tokens, Lower;
    RF.ConnectionLists();
    RF.TrimBoth();
  }

  lemma NotConnection()
    ensures !EqualsIgnoreCase("Content-Type", "Connection") && !EqualsIgnoreCase("Content-Length", "Connection")
  {
    hide Lower;
    LowerNames();
    ContentTypeLower();
    assert |"content-length"| == 14 && |"connection"| == 10 && |"content-type"| == 12;
  }

  lemma ContentTypeLower()
    ensures Lower("Content-Type") == "content-type"
  {
  }

  // ---------------------------------------------------------------- what the upstream was asked

  lemma AskedHead(limits: Req.Limits, client: string, asked: string, body: string) returns (head: Req.Head)
    requires Req.ValidLimits(limits) && HeadOnly(asked) && RequestOf(limits, client, asked).Ok?
    requires |body| == RequestOf(limits, client, asked).value.length
    ensures InfoOf(head, client) == RequestOf(limits, client, asked)
    ensures ToUpstream.WellFormedHead(head) && head.contentLength <= limits.maxBody
    ensures Req.Parse(limits, asked + body) == Req.Complete(head)
  {
    hide Find, Req.ParseRequestLine, HeaderFields.ParseBlock, Req.Validate, ToUpstream.WellFormedHead, HeaderValue;
    hide ToUpstream.UpstreamHead, ListsToken;
    var p := Req.Parse(limits, asked);
    ToUpstream.AcceptedHead(limits, asked);
    head := p.head;
    assert head.headerBytes == |asked|;
    Req.KnownHeadStays(limits, asked, body);
    assert asked + "" == asked;
  }

  /** The upstream whose response was relayed received one complete request and nothing else: the
  rewriting of the one complete request the client sent, with the same body. */
  lemma UpstreamSawTheRequest(config: Config, client: string, w: Wires, peer: Req.Limits)
    requires ValidConfig(config) && w.plan.Relay? && Delivered(CodecOf(config, client), config, w) && !w.noneHealthy
    requires ToUpstream.ValidClient(client) && Req.ValidLimits(peer) && config.maxRequestBody <= peer.maxBody
    ensures exists head: Req.Head ::
              && Req.Parse(RequestLimits(config), w.plan.asked + w.accepted) == Req.Complete(head)
              && w.plan.verb == head.line.verb && HeaderValue(head.headers, "Host").Some?
              && w.upstream == ToUpstream.UpstreamHead(head, client) + w.accepted
              && (|ToUpstream.UpstreamHead(head, client)| <= peer.maxHeader ==>
                    Req.Parse(peer, w.upstream) ==
                    Req.Complete(Req.Head(head.line, ToUpstream.UpstreamFields(head.headers, client),
                                          |ToUpstream.UpstreamHead(head, client)|, head.contentLength)))
  {
    hide Req.Parse, ToUpstream.WellFormedHead, ToUpstream.UpstreamHead, ToUpstream.UpstreamFields, HeaderValue, ListsToken;
    hide Sound, BodyDone, PlanText, HeadOnly, RequestOf;
    var limits := RequestLimits(config);
    var head := AskedHead(limits, client, w.plan.asked, w.accepted);
    ToUpstream.HostOf(head);
    if |ToUpstream.UpstreamHead(head, client)| <= peer.maxHeader {
      ToUpstream.HeadRoundTrip(head, client, peer, w.accepted);
    }
  }

  /** After a first lookup without a healthy upstream the rewritten head was never made, so a
  later attempt relays the response of an upstream that was asked nothing but the body. */
  lemma UnaskedUpstream(config: Config, client: string, w: Wires)
    requires w.plan.Relay? && Delivered(CodecOf(config, client), config, w) && w.noneHealthy
    ensures w.upstream == ""
  {
    hide Sound, BodyDone, PlanText, HeadOnly, RequestOf;
  }

  // ---------------------------------------------------------------- what an error reply means

  predicate Refusable(peer: Rsp.Setup, code: nat, reason: string) {
    && Rsp.ValidSetup(peer) && 100 <= code <= 599 && AllFieldValue(reason)
    && |ErrorHead(code, reason)| <= peer.maxHeader && |ErrorBody(code, reason)| <= peer.maxBody
  }

  lemma ErrorFieldsWellFormed(body: string)
    ensures WellFormedFields(ErrorFields(body)) && ErrorFields(body) != []
  {
    hide AllFieldValue, Trimmed, Decimal;
    FixedNames();
    FixedValues();
    ToClient.DecimalIsFieldValue(|body|);
    PlainText();
  }

  lemma PlainText()
    ensures WellFormedField(HeaderField("Content-Type", "text/plain"))
  {
  }

  lemma ErrorFraming(body: string)
    requires |body| <= SIZE_MAX
    ensures Rsp.NoteHeaders(Rsp.Framing(None, false), ErrorFields(body)) == Ok(Rsp.Framing(Some(|body|), false))
  {
    hide Decimal, Lower, SizeOf, Rsp.NoteHeaders;
    var first, rest := [HeaderField("Content-Type", "text/plain")],
                       [HeaderField("Content-Length", Decimal(|body|))] + [ToClient.ConnectionField(true)];
    assert ErrorFields(body) == first + rest;
    PlainTextUnframed();
    ToClient.NoteUnframed(Rsp.Framing(None, false), first, rest);
    DecimalRoundTrip(|body|);
    ToClient.NoteLength(Decimal(|body|), |body|, true);
  }

  lemma PlainTextUnframed()
    ensures ToClient.Unframed(HeaderField("Content-Type", "text/plain"))
  {
    hide Lower;
    LowerNames();
    assert |Lower("Content-Type")| == 12;
  }

  /** An error reply is one complete response exactly for a request whose response may have a
  body: the answer to a HEAD request carries a body that no client expects. */
  lemma ErrorReplyIsOneResponse(peer: Rsp.Setup, code: nat, reason: string)
    requires Refusable(peer, code, reason)
    ensures var p := Rsp.Parse(peer, ErrorText(code, reason));
            && p.Complete? && p.head.line == Rsp.StatusLine("HTTP/1.1", code, reason)
            && (p.messageBytes == |ErrorText(code, reason)| <==> !Rsp.Bodiless(peer.verb, code))
            && p.body == if Rsp.Bodiless(peer.verb, code) then "" else ErrorBody(code, reason)
  {
    hide Find, Rsp.ParseStatusLine, HeaderFields.ParseBlock, Rsp.NoteHeaders, ErrorFields, HeadText, Rsp.Bodiless;
    hide AllFieldValue, Decimal;
    var line, body := Rsp.StatusLine("HTTP/1.1", code, reason), ErrorBody(code, reason);
    var head, text := ErrorHead(code, reason), ErrorText(code, reason);
    ToClient.StatusLineParses(line);
    ErrorFieldsWellFormed(body);
    ErrorFraming(body);
    PrintedHead(ToClient.StartLine(line), ErrorFields(body), body);
    StartsWith(ToClient.StartLine(line), ErrorFields(body), body);
    assert text[|head|..|head| + |body|] == body;
  }
}
