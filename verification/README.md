# EdgeGate, verified

EdgeGate is a single-threaded HTTP/1.1 reverse proxy. This Dafny project models its hard parts and
proves what they promise: the streaming session, the three incremental parsers, the header
rewriter, routing and health, the event loop with draining, and three small structures.
`dafny verify dfyconfig.toml` checks everything.

How the pieces fit:

* **Octets and fields.** `Text` (searching, trimming, numbers with their 64-bit guards),
  `HeaderFields` (the field grammar), `MessageText` (printed heads).
* **Parsers.** `RequestParsing` and `ResponseParsing` say what all the octets received so far mean
  in one call; the classes `RequestParsing.RequestParser` and `IncrementalResponse.ResponseParser`
  keep positions between calls as the original does and are proved equal to that.
  `ResponseFragmentation` compares one call with many. `ChunkedDecoder` is the non-buffering chunk
  checker, `ChunkGrammar` the grammar of RFC 9112, section 7.1, `ChunkAgreement` and
  `ChunkBuffering` tie the two decoders, `ChunkedExamples` has responses on which they differ.
  `ResponseFraming` and `RequestMeaning` say what heads mean without naming the parsers' functions;
  `ChunkPrinting` prints chunked bodies and reads them back.
* **Rewriting.** `Rewriting`, `RequestRewriting`, `ResponseRewriting`: the printers, and what a
  parser on the other side reads from them (RFC 9110, section 7.6.1); `RewrittenFields` name by name.
* **Session.** `SessionEnvironment` answers for sockets, clock, event loop and routing, arbitrarily
  within their ranges. `SessionTypes` holds values, invariants and their step lemmas. `Session` is
  the class: each method keeps `Valid()`, and `Follows` relates the state before and after a call
  (octets sent stay sent, no attempt is forgotten, the end only comes nearer). `SessionCodec` plugs
  the real parsers, rewriter and decoder in and says what a delivered response means;
  `SessionExamples` has two sessions that do less than expected.
* **Service.** `HostNames`, `Routing`, `Health`, `EventLoops`, `Runtime` (real sessions under ticks,
  drain and stop), `ByteBuffers`, `Latencies`.

Ghost fields record what a session did: `wires` has the octets of the present cycle on each
connection and the response they belong to (its *plan*), `deliveries` the wires of earlier cycles,
`expiredTicks` the timer ticks since the deadline of the present request.

Results where the code does not do what one would first expect; each is proved:

* No mask is renewed after a timer tick, so a tick that acts on a limit can leave a live session
  that no event can wake, until a later tick. It does so exactly when the client was watched for
  nothing and now has an error to be sent, or waits for a new connection registered with nothing to
  send (`Session.ReliableSession.CheckTimeout`, predicates `Unheard` and `StillWatched`): for
  instance when the upstream of a POST is too slow and its 504 does not go out at once
  (`SessionExamples.SlowUpstreamOfPost`).
* A session drained in the middle of a request head forgets the drain when the head is whole: the
  drain fixes the last cycle exactly if the head was already complete, or lists `close`
  (`Session.ReliableSession.BeginDrain`, `AppendRequestHead`, `SessionExamples.DrainedInTheHead`,
  with `KeepAliveRequest` as an input). Ticks of a draining service repeat the drain.
* The streaming decoder takes chunked bodies that the buffering parser refuses, so a chunked
  response that was relayed can be refused by a client that reads like the buffering parser: exactly
  when an extension or a trailer line does not parse, the trailer block is over the header limit, or
  the octets do not fit (`ChunkBuffering.BufferingExactness`, `SessionCodec.ClientSeesOneResponse`;
  `ChunkedExamples.ControlOctetRefused`).
* A chunk-size line is limited only while its CRLF is missing, so a response accepted in one call
  can be refused when it arrives in pieces; exactly the responses with a longer line are affected
  (`ResponseFragmentation.FragmentationExactness`, `ChunkedExamples.LongSizeLineExample`).
* An error reply always carries a body. It is one complete response exactly when the request's
  response may have a body; after HEAD it is not (`SessionCodec.ErrorReplyIsOneResponse`).
* When the first lookup finds no healthy upstream and the 503 stays unsent until the I/O timeout, a
  retry may connect with a head that was never made: the upstream is sent nothing at all
  (`SessionCodec.UnaskedUpstream`; excluded, and nothing else, in `UpstreamSawTheRequest`).
* A session closed inside a nested error path may go back to draining in the same call. It is then
  no longer registered, has only an error reply left to send, and is closed by the next refresh or
  destroyed with the batch (`Session`, predicates `Draining` and `Servable`).
* Normalising a host twice drops another final dot: it is idempotent exactly on results without one
  (`HostNames.NormalizeAgain`, `TwoDots`).
* The 400 branch for request body octets beyond the announced length is dead
  (`Session.ReliableSession.AcceptRequestBytes`).

## Model

| member | source | states |
|---|---|---|
| Text.ParseSize | src/http/response_parser.cpp:72-126 | The accumulating loop with its overflow guards accepts exactly the non-empty numerals, radix 10 or 16, whose unbounded value fits 64 bits, and returns that value |
| Text.DecimalRoundTrip | src/http/message_rewriter.cpp:180-186 | Printing a length in decimal and parsing it gives the length back, for every 64-bit length |
| Text.DigitExactness | src/http/response_parser.cpp:96-126 | The digits of radix 16 are the sixteen of either case with their values, those of radix 10 the first ten |
| Text.HexadecimalRoundTrip | src/http/response_parser.cpp:96-126 | Printing a 64-bit length in hexadecimal, with letters of either case, and parsing it gives the length back |
| Text.HexadecimalIsPrinted | src/http/chunked_stream_decoder.cpp:141-171 | Conversely, every hexadecimal numeral is its value printed, but for leading zeros and letter case |
| Text.TokenCharacters | src/http/chunked_stream_decoder.cpp:14-20 | The characters of a token are exactly the marks, letters and digits of RFC 9110, section 5.6.2 |
| Text.LetterCases | src/http/message_rewriter.cpp:24-45 | Lower-casing maps the twenty-six capital letters to their small ones and leaves all else |
| HeaderFields.FieldLineExactness | src/http/request_parser.cpp:199-236 | A line is read as a field if and only if it is name, colon, any blanks, the trimmed value, any blanks, and the field is well formed |
| HeaderFields.ParsePrintedLines | src/http/request_parser.cpp:199-279 | Any well-formed field list, printed, parses back to the same list in the same order |
| RequestParsing.ValidationExactness | src/http/request_parser.cpp:281-340 | A field list is accepted with body length n if and only if it has exactly one non-empty Host, no Transfer-Encoding, no Expect, every Content-Length says n, and n is within the limit |
| RequestParsing.MoreInput | src/http/request_parser.cpp:342-424 | A verdict on a prefix is final: failures stay failures, a complete message followed by anything is pipelining |
| RequestParsing.KnownHeadStays | src/http/request_parser.cpp:342-424 | A head once known stays the head, whatever octets follow it |
| RequestParsing.FragmentationIndependence | src/http/request_parser.cpp:342-424 | For every octet string and every division, feeding in pieces ends in the one-call state, unless a strict prefix is itself a complete message |
| RequestParsing.RequestParser.Consume | src/http/request_parser.cpp:342-424 | The resuming parser, with its remembered positions, is in the state of one-call parsing of all its input after every call |
| IncrementalResponse.ResponseParser.Consume | src/http/response_parser.cpp:547-613 | The same for responses in all four body modes, the chunk scanner resuming where it stopped |
| IncrementalResponse.ResponseParser.NotifyEof | src/http/response_parser.cpp:615-642 | End of stream completes a close-delimited body within the limit and fails everything else unfinished |
| ResponseFragmentation.FragmentationIndependence | src/http/response_parser.cpp:378-516 | A response accepted in one call whose size lines fit ends in the same state under every division, and every strict prefix asks for more |
| ResponseFragmentation.FragmentedAcceptance | src/http/response_parser.cpp:518-613 | Conversely, a response accepted in pieces is accepted in one call from its own octets, with the same head, body and trailers |
| ResponseFragmentation.FragmentationExactness | src/http/response_parser.cpp:402-410 | No strict prefix of an accepted response is refused if and only if every chunk-size line with its CRLF fits the header limit |
| ResponseFraming.StatusLineExactness | src/http/response_parser.cpp:144-200 | A status line is accepted with version, code and reason if and only if it is these three in order, the code in three digits, the reason possibly missing |
| ResponseFraming.BodyModeExactness | src/http/response_parser.cpp:312-376 | A head is given a body mode if and only if its framing fields agree, and then the one of RFC 9112, section 6.3 |
| ResponseFraming.BodilessCompletes | src/http/response_parser.cpp:342-352 | Responses to HEAD, and those with 1xx, 204 or 304, and no others, are complete at the end of their head, whatever Content-Length says |
| ResponseFraming.HeadToCome | src/http/response_parser.cpp:547-613 | Without a blank line a response is refused from the header limit on, and before it only for its status line |
| RequestMeaning.RequestLineExactness | src/http/request_parser.cpp:138-186 | A request line is accepted as verb, target and version if and only if it is these three with one blank between any two |
| RequestMeaning.HeadToCome | src/http/request_parser.cpp:342-424 | Without a blank line a request is refused from the header limit on, and before it only for its request line |
| ChunkedExamples.LongSizeLineExample | src/http/response_parser.cpp:402-410 | One concrete response, its last-chunk line as many zeros as the header limit, is complete with all its octets in one call, and refused in two that are cut before that line's CRLF |
| ChunkedDecoder.FragmentationIndependence | src/http/chunked_stream_decoder.cpp:53-99 | Two calls answer as one, and end in the same state if and only if the first did not already finish before further octets |
| ChunkedDecoder.DecodedCountsData | src/http/chunked_stream_decoder.cpp:53-99 | Announced octets minus outstanding ones are exactly the data octets seen, and never more are announced than the maximum |
| ChunkedDecoder.ChunkedStreamDecoder.Consume | src/http/chunked_stream_decoder.cpp:53-188 | The bulk loop, skipping over data, is the octet-at-a-time machine |
| ChunkGrammar.DecoderExactness | src/http/chunked_stream_decoder.cpp:117-188 | A fresh decoder finishes on a string with count n if and only if the string is a chunked body of the grammar, within the line limit, whose content has n octets, within the body limit |
| ChunkGrammar.TrailerExactness | src/http/chunked_stream_decoder.cpp:173-188 | A trailer line needs a token before its colon, and any but Content-Length, Transfer-Encoding and Host, in whatever case, is accepted |
| ChunkPrinting.PrintedIsDecoded | src/http/chunked_stream_decoder.cpp:117-188 | Data cut into any pieces and printed with hexadecimal lengths makes the streaming decoder finish on the last octet, having counted exactly the data |
| ChunkPrinting.PrintedIsParsed | src/http/response_parser.cpp:378-516 | And makes the buffering parser finish there with exactly the data as body, whatever follows |
| ChunkAgreement.DecodersAgree | src/http/response_parser.cpp:378-516 | Every chunked body the buffering parser accepts makes the streaming decoder finish on the same octet, not before, with the length of the decoded body |
| ChunkBuffering.BufferingExactness | src/http/response_parser.cpp:378-516 | A chunked body of the grammar finishes the buffering parser on its last octet, with its content and trailers, if and only if every extension and trailer line parses and trailer block and content fit; otherwise the response is refused |
| ChunkBuffering.DoneTogether | src/http/chunked_stream_decoder.cpp:117-188 | The converse of the agreement: where the streaming decoder is done, the buffering parser is done with the decoded content, exactly under those conditions, and otherwise refuses |
| ChunkedExamples.ControlOctetRefused | src/http/response_parser.cpp:412-437 | A control octet after the semicolon of a size line: the streaming decoder is done with the body, the buffering parser refuses the response |
| Rewriting.AddConnectionTokens | src/http/message_rewriter.cpp:24-45 | The comma loop adds exactly the lower-case names a Connection value lists |
| Rewriting.HopByHopHeaders | src/http/message_rewriter.cpp:47-64 | The removed set is the fixed hop-by-hop names and every name any Connection field lists |
| Rewriting.TokensOfList | src/http/message_rewriter.cpp:24-45 | A list lists exactly its comma-separated pieces, without the blanks around them and without case, empty ones aside |
| Rewriting.RemovedExactness | src/http/message_rewriter.cpp:47-64 | A name is removed if and only if it is one of the seven hop-by-hop names or listed by any Connection field |
| RequestRewriting.RewriteRequestHeadForUpstream | src/http/message_rewriter.cpp:124-158 | The appended text is the printed head: start line, surviving fields in order, the proxy's own fields |
| RequestRewriting.RewriteRequestForUpstream | src/http/message_rewriter.cpp:76-122 | The same head followed by the body |
| RequestRewriting.RequestRoundTrip | src/http/message_rewriter.cpp:76-121 | For every complete request, an upstream parser with room reads from its rewriting one complete request: same start line and content length, exactly the rewritten fields |
| RequestRewriting.WhatTravels | src/http/message_rewriter.cpp:24-121 | End-to-end fields travel unchanged and in order; no removed name survives but in the proxy's own fields; exactly one Host, with the client's value |
| RewrittenFields.UpstreamReads | src/http/message_rewriter.cpp:76-121 | An upstream reads exactly one Host and X-Forwarded-Host with the client's host, one X-Forwarded-For with its address, one X-Forwarded-Proto, one Connection: close, and none of the hop-by-hop fields |
| RewrittenFields.ListedOrTravels | src/http/message_rewriter.cpp:24-121 | Of the other fields, those any Connection field lists do not reach the upstream, and all others do, unchanged |
| ResponseRewriting.RewriteResponseHeadForClient | src/http/message_rewriter.cpp:160-197 | The appended text is the printed head with the framing field its body mode calls for |
| ResponseRewriting.RewriteResponseForClient | src/http/message_rewriter.cpp:199-237 | The same for a decoded body, now framed by its length |
| RewrittenFields.ClientReads | src/http/message_rewriter.cpp:160-237 | Whatever the framing, a client reads exactly one Connection field, which lists close if and only if the connection closes, and no hop-by-hop field |
| RewrittenFields.AnnouncedLengthKept | src/http/message_rewriter.cpp:160-197 | A response without a body is relayed with the Content-Length it announced, or with none |
| ResponseRewriting.RelayedHeadRoundTrip | src/http/message_rewriter.cpp:160-197 | A client reads from the relayed head, whatever follows, the same status line, body mode and length |
| ResponseRewriting.RelayedResponseRoundTrip | src/http/message_rewriter.cpp:160-197 | A complete response relayed as rewritten head and raw body octets is read with the same status line, decoded body and trailers, and ends where the octets end |
| ResponseRewriting.WholeResponseRoundTrip | src/http/message_rewriter.cpp:199-237 | A complete response decoded and sent whole is read with the same status line and decoded body |
| Session.ReliableSession.constructor | src/proxy/reliable_proxy_server.cpp:378-398 | A new session is valid, waits for a request head, and is registered for what it waits for |
| Session.ReliableSession.OnEvent | src/proxy/reliable_proxy_server.cpp:553-624 | Any event on any state keeps the invariants; octets sent stay sent; a cycle ends only with a delivered response, and never after a promise to close; what was asked for is done as far as the sockets allow (`Served`); unless the kernel refuses, the registered masks are the interests; a client's error or hang-up closes the session, and its half-close closes it or makes the cycle the last; the only errors planned are the refusals of a head and, for an upstream that failed, 502; and an upstream event leaves an upstream attached, or a response ended or broken off, or the client told 502 (`Resolved`) |
| Session.ReliableSession.ReadClient | src/proxy/reliable_proxy_server.cpp:626-682 | The reading loop ends and keeps the invariants; it stops with input still wanted only when the socket has no more; an end of stream or a failure it meets closes the session |
| Session.ReliableSession.AcceptRequestBytes | src/proxy/reliable_proxy_server.cpp:684-737 | Octets go into the head; after it they join the queue for the upstream verbatim, and always fit what was announced and what the queue can take, so the 400 branch is dead |
| Session.ReliableSession.AppendRequestHead | src/proxy/reliable_proxy_server.cpp:688-720 | Octets up to the first blank line, wherever the calls cut them, are the head; one that is too long, or still incomplete and too long, is answered 413; whether the connection goes on is then what the head says, whatever was decided before |
| Session.ReliableSession.QueueBody | src/proxy/reliable_proxy_server.cpp:722-737 | Accepted body octets join the queue for the upstream verbatim, and completeness is reached exactly at the announced length |
| Session.ReliableSession.FinishRequestHead | src/proxy/reliable_proxy_server.cpp:739-800 | Exactly when a head is unparseable, its excess too long, its host and target unrouted, without healthy upstream or too large for the queue, it is answered 400, 413, 404 or 503 accordingly; otherwise an upstream of its route is tried, and is attached or answered for with 502 (`Decided`) |
| Session.ReliableSession.ConnectUpstream | src/proxy/reliable_proxy_server.cpp:802-848 | The recursion through failure and retry terminates, within two attempts, in a state the invariants allow; unless the environment reported a failure the upstream stays attached and no second one is tried; and if none is attached in the end the client is told 502 |
| Session.ReliableSession.FinishConnect | src/proxy/reliable_proxy_server.cpp:850-866 | Unless the environment reported a failure, the request is on its way or its response awaited, at the same attempt; otherwise another upstream is attached or the client is told 502 |
| Session.ReliableSession.WriteUpstream | src/proxy/reliable_proxy_server.cpp:868-899 | Sent and queued octets together stay the rewritten head followed by the accepted body; octets stay queued only when the socket takes no more; the response is awaited only once all of it is out; a failure is answered with another upstream or 502 |
| Session.ReliableSession.ReadUpstream | src/proxy/reliable_proxy_server.cpp:901-959 | The reading loop ends and keeps the invariants; it stops with more wanted only when the socket has no more or the client is too slow; afterwards an upstream is attached, or the response is whole, or broken off with a part of it sent, or the client is told 502 |
| Session.ReliableSession.FinishResponseHead | src/proxy/reliable_proxy_server.cpp:987-1034 | A head that does not parse, does not fit, or forbids the octets after it, is answered with another upstream or 502 |
| Session.ReliableSession.UpstreamEnds | src/proxy/reliable_proxy_server.cpp:940-957 | End of stream in the middle of a close-delimited body ends that response as it is, whether its cycle goes on or is over; anything else ends no relayed response: another attempt, 502, or, with a part sent, a closed session |
| Session.ReliableSession.StartRelay | src/proxy/reliable_proxy_server.cpp:987-1034 | The rewritten head, announcing the close that a close-delimited body or an ended client makes necessary, is queued exactly when it fits, for the request that is whole at the upstream |
| Session.ReliableSession.AppendResponseBody | src/proxy/reliable_proxy_server.cpp:1036-1081 | Body octets are taken exactly when they fit the client's queue and the framing allows them; otherwise another upstream is attached, or the client is told 502, or, with a part sent, the session closes |
| Session.ReliableSession.ForwardBody | src/proxy/reliable_proxy_server.cpp:1036-1081 | Accepted body octets are queued verbatim, and the body counts as done exactly when its framing says so |
| Session.ReliableSession.WriteClient | src/proxy/reliable_proxy_server.cpp:1083-1117 | Octets leave in order and stay queued only when the socket takes no more; the cycle ends only when the whole response is out |
| Session.ReliableSession.EndCycle | src/proxy/reliable_proxy_server.cpp:1103-1117 | The last octet out, the response is logged; a session that announced the end, or has to close, closes, and only otherwise goes on |
| Session.ReliableSession.ForgetCycle | src/proxy/reliable_proxy_server.cpp:1135-1167 | The cycle's wires become a delivery and nothing of the request or response remains |
| Session.ReliableSession.UpstreamFailure | src/proxy/reliable_proxy_server.cpp:1176-1207 | With part of the response sent the session closes; otherwise the client is answered with the given status unless another upstream is tried, and none is tried only if the request may not be repeated or the lookup has no other upstream |
| Session.ReliableSession.RetryUpstream | src/proxy/reliable_proxy_server.cpp:1209-1241 | Only a bodiless GET or HEAD with one attempt at most is tried again, and then whenever the lookup finds an upstream not tried yet |
| Session.ReliableSession.PrepareRetry | src/proxy/reliable_proxy_server.cpp:1209-1241 | The second attempt is another upstream of the same route, with the request queued from its first octet and nothing of the failed response left |
| Session.ReliableSession.PlanError | src/proxy/reliable_proxy_server.cpp:1243-1270 | An error reply replaces what was queued only while nothing was sent, and announces the close |
| Session.ReliableSession.RefreshInterests | src/proxy/reliable_proxy_server.cpp:1290-1303 | Afterwards the masks are the interests, or the kernel refused one and the session closed or changed upstream |
| Session.ReliableSession.RefreshUpstream | src/proxy/reliable_proxy_server.cpp:1290-1303 | An upstream the kernel will not watch is a failure: another one, or 502, or, with a part sent, a closed session |
| Session.ReliableSession.UpdateRequestBackpressure | src/proxy/reliable_proxy_server.cpp:1305-1316 | Pausing only at the high mark, resuming only at the low mark, nothing else changed |
| Session.ReliableSession.UpdateResponseBackpressure | src/proxy/reliable_proxy_server.cpp:1318-1329 | The same towards the client |
| Session.ReliableSession.LogAccessOnce | src/proxy/reliable_proxy_server.cpp:1332-1373 | One access record for each response handed over, never a second |
| Session.ReliableSession.CheckTimeout | src/proxy/reliable_proxy_server.cpp:1398-1437 | Before any limit is passed nothing changes, the masks included; once one is, the session is closed, or tries another upstream, or tells the client 504, or 502 for the other upstream; at or past its deadline it comes a step nearer to its end; exactly when the masks are still the interests, and exactly when nothing can wake the session |
| Session.ReliableSession.EveryStateIsTimed | src/proxy/reliable_proxy_server.cpp:1398-1437 | In whatever state a live session is, once its phase and idle time have both passed a tick acts |
| Session.ReliableSession.BeginDrain | src/proxy/reliable_proxy_server.cpp:1376-1390 | An idle connection closes at once; the present cycle becomes the last if and only if its head has been read; a head half read stays as it is |
| Session.ReliableSession.ForceClose | src/proxy/reliable_proxy_server.cpp:1392-1395 | Closed, with no descriptor registered |
| Session.ReliableSession.NoLostWakeup | src/proxy/reliable_proxy_server.cpp:516-551 | Every live session still registered, whatever its masks, wants something from a descriptor it has, and with current masks is subscribed to it; a body direction that is read has room and octets to come |
| Session.ReliableSession.PauseIsTemporary | src/proxy/reliable_proxy_server.cpp:1305-1329 | A paused direction is subscribed for writing at its other end |
| Session.ReliableSession.RequestEnds | src/proxy/reliable_proxy_server.cpp:1398-1437 | After three ticks at or past its deadline no request is under way |
| Session.ReliableSession.ClientStream | src/proxy/reliable_proxy_server.cpp:1083-1117 | All earlier cycles delivered exactly their one relayed response, and none of these had announced the end of the connection; the present one has sent a prefix of its own; a second attempt is at another upstream and only for a GET or HEAD without a body; access records count the deliveries |
| SessionTypes.StreamGrows | src/proxy/reliable_proxy_server.cpp:1083-1117 | Over calls and cycles the octets sent to the client only grow |
| SessionTypes.BodyGrows | src/proxy/reliable_proxy_server.cpp:1036-1081 | The body checks keep the relayed body a beginning of a body of the head's mode, and report its end exactly when it is whole |
| SessionTypes.RequestDelivered | src/proxy/reliable_proxy_server.cpp:868-899 | An upstream that has taken all that was queued has been sent exactly this request |
| SessionTypes.FollowsTransitive | src/proxy/reliable_proxy_server.cpp:553-624 | The guarantees of single events hold over any sequence of events |
| SessionTypes.LeadsTransitive | src/proxy/reliable_proxy_server.cpp:553-624 | What events and ticks have in common, the cycle going on or ending with its response sent, composes |
| SessionTypes.RunGrows | src/proxy/reliable_proxy_server.cpp:1398-1437 | Over a run of events and ticks in any order the client's octets only grow, and a promised last cycle stays the last |
| SessionExamples.SlowUpstreamOfPost | src/proxy/reliable_proxy_server.cpp:1398-1437 | A POST past its upstream's time limit is closed, or left with its 504 queued and no descriptor subscribed to anything |
| SessionExamples.DrainedInTheHead | src/proxy/reliable_proxy_server.cpp:773-775 | Drained in the middle of a head and then given an upstream, a session is on its last request if and only if the head lists close |
| SessionExamples.KeepAliveRequest | src/proxy/reliable_proxy_server.cpp:739-775 | A concrete request that is accepted and keeps the connection |
| SessionCodec.HeaderContainsToken | src/proxy/reliable_proxy_server.cpp:85-111 | The comma loop finds a token exactly when the value lists it, case aside, in the sense of the hop-by-hop rule |
| SessionCodec.ParseRequestHead | src/proxy/reliable_proxy_server.cpp:739-769 | The parser object gives the request the session works with, and the 413 or 400 verdict otherwise |
| RequestMeaning.RequestMeans | src/proxy/reliable_proxy_server.cpp:739-775 | For every accepted head: verb and target are those of its first line, the host is the value of its one Host field, the length is what every Content-Length says, and it closes if and only if the first Connection field lists close |
| RequestMeaning.PrintedRequest | src/proxy/reliable_proxy_server.cpp:739-775 | And every printed head with one Host, agreed lengths within the limit and nothing refused is accepted, with that meaning |
| RequestMeaning.PrintedTooLarge | src/proxy/reliable_proxy_server.cpp:746-756 | With a body longer than the limit it is refused as too large |
| SessionCodec.ParseResponseHead | src/proxy/reliable_proxy_server.cpp:987-1005 | The parser object gives the head and mode the session relays |
| SessionCodec.CodecIsValid | src/proxy/reliable_proxy_server.cpp:739-1081 | The real parsers, rewriter and decoder satisfy everything the session assumes of them |
| SessionCodec.RelayPreservesMeaning | src/proxy/reliable_proxy_server.cpp:987-1117 | Client and upstream connection of a delivered response carry the same status line, the same framing and the same octets of a whole body, and nothing else |
| SessionCodec.ClientIsTold | src/proxy/reliable_proxy_server.cpp:987-1034 | The client of a delivered response reads one Connection field, which lists close if and only if the session had decided to close after it |
| SessionCodec.ErrorReplyTellsClose | src/proxy/reliable_proxy_server.cpp:1243-1270 | An error reply tells the client that the connection closes |
| SessionCodec.ClientSeesOneResponse | src/proxy/reliable_proxy_server.cpp:987-1117 | A client that buffers reads one complete response with that body and no octet after it; a chunked one, with its decoded content, if and only if it has room and its stricter reading accepts the body, and otherwise it refuses |
| SessionCodec.UpstreamSawTheRequest | src/proxy/reliable_proxy_server.cpp:868-899 | The upstream of a delivered response got one complete request: the rewriting of the one the client sent, with the same body |
| SessionCodec.UnaskedUpstream | src/proxy/reliable_proxy_server.cpp:1209-1241 | After a first lookup without a healthy upstream, the relayed upstream was sent nothing |
| SessionCodec.ErrorReplyIsOneResponse | src/proxy/reliable_proxy_server.cpp:1243-1270 | An error reply parses as its status and body, and is one complete response if and only if the request's response may have a body |
| HostNames.ValidNormalizedHost | src/routing/route_table.cpp:37-82 | The label loop accepts exactly the hosts of the grammar |
| HostNames.Normalize | src/routing/route_table.cpp:288-343 | The steps compute the normal form |
| HostNames.NormalForm | src/routing/route_table.cpp:288-343 | A normal form is a valid lower-case host without blanks |
| HostNames.CaseDoesNotMatter | src/routing/route_table.cpp:288-343 | Hosts that differ in case have one normal form |
| HostNames.NormalizeAgain | src/routing/route_table.cpp:288-343 | A port does not matter; a second pass drops one final dot, so it changes nothing if and only if there is none |
| HostNames.TwoDots | src/routing/route_table.cpp:288-343 | `a..` has a normal form that ends in a dot, and that one has another |
| HostNames.PortExactness | src/routing/route_table.cpp:288-343 | What follows a name and a colon is a port, which does not matter, or the whole is not a host |
| Routing.RouteTable.Create | src/routing/route_table.cpp:86-142 | A table is made if and only if every route is valid and no two clash in id or in kind, host and prefix |
| Routing.KeyExactness | src/routing/route_table.cpp:115-119 | The match-key strings are equal exactly when kind, host and prefix are |
| Routing.Separated | src/routing/route_table.cpp:157-184 | Of two routes of a table that match one request, one is more specific |
| Routing.BestIsUnique | src/routing/route_table.cpp:157-184 | At most one route beats all other matches |
| Routing.OrderDoesNotMatter | src/routing/route_table.cpp:157-184 | A permutation of a table chooses a route exactly when the table does, and the same one |
| Routing.NoRouteExactness | src/routing/route_table.cpp:157-184 | No route is chosen if and only if there is no host, no path or no match |
| Routing.HealthDoesNotMatter | src/routing/route_table.cpp:157-184 | Health, cursors and exclusions take no part in the choice of the route |
| Routing.RouteTable.Lookup | src/routing/route_table.cpp:152-209 | The most specific route, the next eligible upstream of its round, and only that cursor moved |
| Routing.ChosenIsMostSpecific | src/routing/route_table.cpp:157-184 | The chosen route is exactly the match such that, if any exact route matches, it is exact, no match of its kind has a longer host, and none of those with as long a host has as long a prefix |
| Routing.MatchMeaning | src/routing/route_table.cpp:353-367 | An exact pattern matches that host alone, a wildcard any host ending in a dot and its own, a prefix any path that begins with it |
| Routing.PathMeaning | src/routing/route_table.cpp:345-351 | The path is what precedes the first question mark |
| Routing.NextInRound | src/routing/route_table.cpp:186-203 | The modular offset loop finds the first eligible upstream once round from the cursor |
| Routing.AnswerExactness | src/routing/route_table.cpp:186-208 | No healthy upstream is reported if and only if every upstream is unhealthy or excluded; a match is healthy, not excluded and of the route |
| Routing.RoundTurns | src/routing/route_table.cpp:186-203 | Serving one upstream turns the round by one |
| Routing.RoundRobinFairness | src/routing/route_table.cpp:186-203 | From any cursor, lookups in a row serve the round in order |
| Routing.EachHealthyOnce | src/routing/route_table.cpp:186-203 | As many lookups as there are healthy upstreams serve each of them exactly once |
| Routing.LookupsServeTheRound | src/routing/route_table.cpp:152-209 | Any run of lookups: those that choose one route, others in between, are given its upstreams in the order of the round |
| Routing.WindowIsFair | src/routing/route_table.cpp:186-203 | Of those, as many as the route has healthy upstreams are given each of them exactly once |
| Routing.RouteTable.SetEndpointHealth | src/routing/route_table.cpp:211-235 | Every copy at that address and port gets the flag, in the table and among the published routes, and nothing else changes |
| Routing.RouteTable.UniqueEndpoints | src/routing/route_table.cpp:237-251 | Each address and port of the table once |
| Routing.EndpointKeyExactness | src/routing/route_table.cpp:243-245 | Key strings are equal exactly when address and port are |
| Health.Hysteresis | src/proxy/reliable_proxy_server.cpp:1891-1926 | k changes of an endpoint's flag take at least ceil(k/2) failure thresholds plus floor(k/2) success thresholds of results |
| Health.HysteresisIsTight | src/proxy/reliable_proxy_server.cpp:1891-1926 | For every k some results reach k changes with exactly that many |
| Health.CountersAreRuns | src/proxy/reliable_proxy_server.cpp:1891-1926 | The counters are the lengths of the runs of failures and of successes at the end of all results |
| Health.FlagChangesExactly | src/proxy/reliable_proxy_server.cpp:1891-1926 | The flag changes at a result if and only if that result completes a run of failures while healthy, of successes while not, as long as the threshold; any other result starts the run again |
| Health.HealthMonitor.constructor | src/proxy/reliable_proxy_server.cpp:205-217 | The rebuilt health table knows every endpoint and agrees with every copy |
| Health.HealthMonitor.RecordResult | src/proxy/reliable_proxy_server.cpp:1891-1926 | A result counts for its endpoint alone; the flag changes if and only if this result completes a run of as many equal ones as the threshold asks; the agreement with every copy is kept |
| Health.HealthMonitor.EveryCopyAgrees | src/proxy/reliable_proxy_server.cpp:1891-1926 | After any results, the flag of every copy, routed or published, is the health table's |
| EventLoops.EventLoop.Add | src/net/event_loop.cpp:46-80 | A descriptor in use, pending removals included, is refused |
| EventLoops.EventLoop.Remove | src/net/event_loop.cpp:96-116 | In a batch a handler is only marked; otherwise it is destroyed at once |
| EventLoops.EventLoop.RunOnce | src/net/event_loop.cpp:118-157 | Whatever handlers do, no handler is called after its removal, each call goes to the handler registered when the event was reported, and exactly the removed handlers are destroyed, after the batch |
| Runtime.ReliableRuntime.Accept | src/proxy/reliable_proxy_server.cpp:1939-1976 | Exactly one new session, waiting for a request head, joins the others, and only while listening |
| Runtime.ReliableRuntime.RequestDrain | src/proxy/reliable_proxy_server.cpp:1553-1588 | The mode only moves on, the deadline is set once, a stop is not taken back; idle sessions are closed, those past a request head are on their last request, and the others have a head half read |
| Runtime.ReliableRuntime.Tick | src/proxy/reliable_proxy_server.cpp:1714-1752 | Every session has seen the tick or is closed; at the drain deadline all are closed; without sessions the drain ends or the loop is stopped; every session keeps its deadline rule |
| Runtime.ReliableRuntime.RunBatch | src/proxy/reliable_proxy_server.cpp:1714-1752 | One batch of arbitrary events: no session joins a drain, and a late timer leaves none |
| Runtime.ReliableRuntime.Run | src/proxy/reliable_proxy_server.cpp:1553-1752 | Over any run of batches: from the first batch on that asks for a drain, one batch whose timer fires at or after the deadline leaves no session, and two leave `Draining`; the deadline does not move |
| ByteBuffers.ByteBuffer.Append | src/net/byte_buffer.cpp:15-27 | Octets join the end if and only if they fit, otherwise nothing changes, and storage never outgrows the maximum |
| ByteBuffers.ByteBuffer.Consume | src/net/byte_buffer.cpp:29-43 | A prefix is dropped; octets moved by these compactions never exceed octets consumed |
| ByteBuffers.ByteBuffer.Replay | src/net/byte_buffer.cpp:15-49 | Any run of operations gives the contents and answers of the bounded queue |
| ByteBuffers.QueueOrder | src/net/byte_buffer.cpp:15-49 | What went in is what came out, in order, followed by what is queued, never more than fits |
| Latencies.ObservabilityStore.BucketOf | src/runtime/observability.cpp:61-65 | The search finds the one bucket whose bounds enclose the latency |
| Latencies.ObservabilityStore.RecordRequest | src/runtime/observability.cpp:44-102 | The histogram counts every sample, minimum and maximum are samples, the slow record holds the newest up to its limit |
| Latencies.ObservabilityStore.Percentile | src/runtime/observability.cpp:253-270 | The report is that of the first bucket whose running total reaches the exact ceiling of the ratio |
| Latencies.PercentileBrackets | src/runtime/observability.cpp:253-270 | The exact sample of that rank lies in the reported bucket, and is at most the maximum in the last one |
| Latencies.ObservabilityStore.PercentileIsClose | src/runtime/observability.cpp:253-270 | The exact sample is not above the report and above every smaller bound |
| Latencies.PercentilesAscend | src/runtime/observability.cpp:253-270 | A higher rank never reports less |
| Latencies.ObservabilityStore.TrimBoundedRecords | src/runtime/observability.cpp:272-280 | The newest up to the limit remain |

## Left out

- Octets are characters: a string stands for a byte string, and only ASCII classes are used for case and digits.
- `EPOLLRDHUP` is always subscribed, so the interests of the model are reading and writing only.
- Interrupted system calls may repeat only finitely often (`SessionEnvironment`): a call interrupted for ever never returns.
- The session's queues and decoder are the contents and the state that `ByteBuffer` and `ChunkedStreamDecoder` expose, not those objects; appending and consuming agree with `ByteBuffers.Applied`.
- Routing inside a session is any answer the contract of `SessionEnvironment.Environment.Lookup` allows; `Routing.AnswerExactness` and `Routing.HealthDoesNotMatter` show that the table keeps to it.
- Statistics counters, access and error log text, JSON snapshots and timestamps, and their 64-bit wrap-around.
- Rounding of `double` in the percentile's rank: the ratio is a real number.
- Configuration parsing: positive thresholds, low mark below high mark below capacity, and healthy endpoints at the start are preconditions.
- Reload of the configuration, except that sessions may meet a new table and new timeouts at any cycle.
- Health-probe networking: a probe is a source of results, and so is a session; which results sessions report is not modelled.
- Runtime: the lists of removed handlers are not shared with `EventLoops`; that a session ends with the batch in which its client handler was removed is taken from `EventLoops.EventLoop.RunOnce`.
- Session calls from inside a tick other than drain, close and timeout, since the runtime makes no others.
- `set_upstream_health`, which the runtime does not call and which would break the agreement of copies.
- The earlier proxy and echo servers, the dashboard, the management socket, signals and the command-line programs: they would only add easier members.
