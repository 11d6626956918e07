/** Two sessions on which the proxy does less than one would first expect. */
module SessionExamples {
  import opened Text
  import opened HeaderFields
  import opened MessageText
  import opened SessionEnvironment
  import opened SessionTypes
  import opened Session
  import opened SessionCodec
  import Req = RequestParsing

  // ---------------------------------------------------------------- a time-out nobody can send

  /** The upstream of a POST is too slow, and its 504 does not go out at once: the client, so far
  watched for nothing, is not watched for room, and only the timer calls this session again. */
  method SlowUpstreamOfPost(s: ReliableSession, now: nat)
    requires s.Valid() && s.Watched() && s.state == ReadingResponseHead && s.request.verb == "POST"
    requires s.deadlines.phase <= now && s.lastTick <= now
    modifies s, s.env
    ensures s.Valid()
    ensures s.state == Closed ||
            (s.state == DrainingResponse && s.toClient != "" && s.wires.plan == ErrorReply(504, "Gateway Timeout") && s.Silent())
  {
    hide ReliableSession.Core, ReliableSession.Rest, ReliableSession.Trail, ReliableSession.Silent, ReliableSession.Interests;
    s.MasksBefore();
    s.ClosedHasLeft();
    NothingQueued(s);
    s.CheckTimeout(now);
    if s.state != Closed {
      Undelivered(s);
    }
  }

  lemma NothingQueued(s: ReliableSession)
    requires s.Valid() && s.state == ReadingResponseHead
    ensures s.toClient == "" && s.request.bodyComplete
  {
    hide ReliableSession.Core;
  }

  lemma Undelivered(s: ReliableSession)
    requires s.Valid() && s.state != Closed && !s.upstreamAttached && s.wires.plan.ErrorReply?
    ensures s.state == DrainingResponse && s.toClient != ""
  {
    hide ReliableSession.Core;
  }

  // ---------------------------------------------------------------- a drain that is forgotten

  /** A session drained in the middle of a head: when the head is whole, what it says of the
  connection, and not the drain, decides whether this request is the last. */
  method DrainedInTheHead(s: ReliableSession, rest: string)
    requires s.Valid() && s.clientRegistered && s.state == ReadingRequestHead && s.request.headBytes != "" && rest != ""
    requires HeadOnly(s.request.headBytes + rest) && |s.request.headBytes + rest| <= s.config.maxHeader
    modifies s, s.env
    ensures s.Valid()
    ensures s.upstreamAttached ==> s.AskedToClose(old(s.request.headBytes) + rest, s.Trail().last)
  {
    hide ReliableSession.Core, ReliableSession.Rest, ReliableSession.Watched, ReliableSession.Decided;
    var all := s.request.headBytes + rest;
    s.BeginDrain();
    s.CoreBounds();
    if s.state == Closed {
      return;
    }
    StillRegistered(s);
    var ok := s.AppendRequestHead(rest);
    assert all[..|all|] == all;
    PastTheHead(s);
  }

  lemma StillRegistered(s: ReliableSession)
    requires s.Valid() && s.Servable() && s.state == ReadingRequestHead
    ensures s.clientRegistered
  {
    hide ReliableSession.Core;
  }

  lemma PastTheHead(s: ReliableSession)
    requires s.Valid()
    ensures s.upstreamAttached ==> s.state != ReadingRequestHead
  {
    hide ReliableSession.Core;
  }

  const REQUEST_LINE: string := "GET / HTTP/1.1"

  const FIELDS: seq<HeaderField> := [HeaderField("Host", "a")]

  const GET: string := HeadText(REQUEST_LINE, FIELDS)

  lemma RequestLineOctets()
    ensures REQUEST_LINE == "" + "GET" + [' '] + "/ HTTP/1.1" == "GET " + "/" + [' '] + "HTTP/1.1" == "GET / " + "HTTP/1.1"
    ensures Lacks("GET", ' ') && Lacks("/", ' ') && Lacks("HTTP/1.1", ' ') && Lacks(REQUEST_LINE, '\r')
    ensures REQUEST_LINE[..3] == "GET" && REQUEST_LINE[4..5] == "/" && REQUEST_LINE[6..] == "HTTP/1.1"
    ensures AllToken("GET") && AllTarget("/")
  {
  }

  lemma RequestLineReads()
    ensures Req.ParseRequestLine(REQUEST_LINE) == Ok(Req.RequestLine("GET", "/", "HTTP/1.1"))
  {
    hide Find, AllToken, AllTarget;
    RequestLineOctets();
    FindSeparator("", "GET", "/ HTTP/1.1", ' ');
    FindSeparator("GET ", "/", "HTTP/1.1", ' ');
    FindNoSeparator("GET / ", "HTTP/1.1", ' ');
  }

  lemma HostOnly(limits: Req.Limits)
    requires limits.maxHeader <= SIZE_MAX
    ensures WellFormedFields(FIELDS)
    ensures forall headerBytes: nat | headerBytes <= SIZE_MAX :: Req.Validate(limits, FIELDS, headerBytes) == Ok(0)
    ensures HeaderValue(FIELDS, "Host") == Some("a") && HeaderValue(FIELDS, "Connection").None?
  {
    hide SizeOf, Lower;
    LowerNames();
    FixedNames();
    assert |"host"| == 4 && |"content-length"| == 14 && |"transfer-encoding"| == 17 && |"expect"| == 6 && |"connection"| == 10;
    assert FIELDS[1..] == [];
    assert "host"[0] == 'h' && "expect"[0] == 'e';
  }

  /** A request that keeps the connection: drained in the middle of its head, it does not become
  the last one when its head has been read. */
  lemma KeepAliveRequest(config: Config, client: string)
    requires ValidConfig(config) && |GET| <= config.maxHeader
    ensures HeadOnly(GET) && CodecOf(config, client).request(GET).Ok? && !CodecOf(config, client).request(GET).value.close
  {
    hide Find, Req.ParseRequestLine, HeaderFields.ParseBlock, Req.Validate, HeaderValue, HeadText, Lower;
    RequestLineReads();
    RequestLineOctets();
    HostOnly(RequestLimits(config));
    PrintedHead(REQUEST_LINE, FIELDS, "");
    StartsWith(REQUEST_LINE, FIELDS, "");
    assert GET + "" == GET;
  }
}
