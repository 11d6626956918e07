/** What the session takes from a request head, said of its octets. */
module RequestMeaning {
  import opened Text
  import opened HeaderFields
  import opened MessageText
  import opened Rewriting
  import opened SessionTypes
  import opened SessionCodec
  import Req = RequestParsing
  import ToUpstream = RequestRewriting
  import RF = RewrittenFields

  // ---------------------------------------------------------------- the request line

  /** A request line is three parts with one blank between any two (RFC 9112, section 3). */
  lemma RequestLineExactness(text: string, line: Req.RequestLine)
    ensures Req.ParseRequestLine(text) == Ok(line) <==>
            Req.WellFormedLine(line) && text == line.verb + " " + line.target + " " + line.version
  {
    hide Find, AllToken, AllTarget;
    if Req.WellFormedLine(line) && text == line.verb + " " + line.target + " " + line.version {
      ToUpstream.StartLineParses(line);
    }
    if Req.ParseRequestLine(text) == Ok(line) {
      var first := Find(text, " ", 0).value;
      var second := Find(text, " ", first + 1).value;
      ThreeParts(text, first, second);
    }
  }

  lemma ThreeParts(text: string, first: nat, second: nat)
    requires At(text, " ", first) && At(text, " ", second) && first < second
    ensures text == text[..first] + " " + text[first + 1..second] + " " + text[second + 1..]
  {
    AtOctet(text, " ", first, 0);
    AtOctet(text, " ", second, 0);
    assert text == text[..first] + [text[first]] + text[first + 1..second] + [text[second]] + text[second + 1..];
  }

  /** Octets without a blank line are refused as soon as they reach the limit, and before that only
  for what is wrong with their first line. */
  lemma HeadToCome(limits: Req.Limits, buffer: string)
    requires Find(buffer, CRLF_CRLF, 0).None?
    ensures |buffer| >= limits.maxHeader ==> Req.Parse(limits, buffer).Failed?
    ensures |buffer| < limits.maxHeader ==>
              (Req.Parse(limits, buffer) == Req.AwaitingHead <==>
               Find(buffer, CRLF, 0).None? || Req.ParseRequestLine(buffer[..Find(buffer, CRLF, 0).value]).Ok?)
  {
    hide Find, Req.ParseRequestLine;
  }

  // ---------------------------------------------------------------- the whole head

  /** The request these octets make: verb and target from the request line, the host from the one
  Host field, the length from the Content-Length fields, and whether the first Connection field
  lists `close`. */
  ghost predicate Says(limits: Req.Limits, bytes: string, fields: seq<HeaderField>, info: RequestInfo) {
    var start := info.verb + " " + info.target + " HTTP/1.1" + CRLF;
    && start <= bytes && |bytes| >= 4
    && info.verb != "" && AllToken(info.verb) && info.target != "" && AllTarget(info.target)
    && ParseBlock(bytes, |start|, |bytes| - 4) == Ok(fields)
    && RF.OnlyOne(fields, "Host", info.host) && info.host != ""
    && Req.IsLength(fields, info.length) && info.length <= limits.maxBody
    && (info.close <==>
          exists i :: 0 <= i < |fields| && Named(fields[i], "Connection") && "close" in Tokens(fields[i].value)
                      && forall j | 0 <= j < i :: !Named(fields[j], "Connection"))
  }

  /** For every request head the session accepts. */
  lemma RequestMeans(limits: Req.Limits, client: string, bytes: string) returns (fields: seq<HeaderField>)
    requires Req.ValidLimits(limits) && HeadOnly(bytes) && RequestOf(limits, client, bytes).Ok?
    ensures Says(limits, bytes, fields, RequestOf(limits, client, bytes).value)
  {
    hide Find, Req.Parse, ParseBlock, Says, ToUpstream.WellFormedHead, HeaderValue, ListsToken, ToUpstream.UpstreamHead;
    var p := Req.Parse(limits, bytes);
    ToUpstream.AcceptedHead(limits, bytes);
    HeadParts(limits, bytes, p.head);
    fields := p.head.headers;
    HeadSays(limits, client, bytes, p.head);
  }

  lemma HeadParts(limits: Req.Limits, bytes: string, head: Req.Head)
    requires HeadOnly(bytes)
    requires Req.Parse(limits, bytes) == Req.AwaitingBody(head) || Req.Parse(limits, bytes) == Req.Complete(head)
    ensures Req.WellFormedLine(head.line)
    ensures var start := head.line.verb + " " + head.line.target + " HTTP/1.1" + CRLF;
            start <= bytes && ParseBlock(bytes, |start|, |bytes| - 4) == Ok(head.headers)
  {
    hide Find, Req.ParseRequestLine, ParseBlock, Req.Validate;
    var lineEnd := Find(bytes, CRLF, 0).value;
    RequestLineExactness(bytes[..lineEnd], head.line);
    assert bytes[lineEnd..lineEnd + 2] == CRLF;
    assert bytes == bytes[..lineEnd] + bytes[lineEnd..lineEnd + 2] + bytes[lineEnd + 2..];
    StartText(head.line);
  }

  lemma StartText(line: Req.RequestLine)
    requires line.version == "HTTP/1.1"
    ensures line.verb + " " + line.target + " " + line.version + CRLF == line.verb + " " + line.target + " HTTP/1.1" + CRLF
  {
  }

  lemma HeadSays(limits: Req.Limits, client: string, bytes: string, head: Req.Head)
    requires ToUpstream.WellFormedHead(head) && head.contentLength <= limits.maxBody && |bytes| >= 4
    requires var start := head.line.verb + " " + head.line.target + " HTTP/1.1" + CRLF;
             start <= bytes && ParseBlock(bytes, |start|, |bytes| - 4) == Ok(head.headers)
    ensures InfoOf(head, client).Ok? && Says(limits, bytes, head.headers, InfoOf(head, client).value)
  {
    hide ParseBlock, HeaderValue, Tokens, ToUpstream.UpstreamHead, Named, Req.Hosts, AllToken, AllTarget;
    ToUpstream.HostOf(head);
    OneHost(head.headers);
    CloseIsLower();
  }

  lemma CloseIsLower()
    ensures Lower("close") == "close"
  {
  }

  lemma {:induction false} OneHost(hs: seq<HeaderField>)
    requires Req.Hosts(hs) == 1
    ensures HeaderValue(hs, "Host").Some? && RF.OnlyOne(hs, "Host", HeaderValue(hs, "Host").value)
    decreases |hs|
  {
    hide Named;
    assert forall j | 1 <= j < |hs| :: hs[j] == hs[1..][j - 1];
    if Named(hs[0], "Host") {
      ToUpstream.HostAmong(hs[1..]);
    } else {
      OneHost(hs[1..]);
    }
  }

  /** And every printed head with one Host, agreed lengths and nothing refused is accepted. */
  lemma PrintedRequest(limits: Req.Limits, client: string, verb: string, target: string, fields: seq<HeaderField>,
                       host: string, length: nat)
    requires verb != "" && AllToken(verb) && target != "" && AllTarget(target) && Req.ValidLimits(limits)
    requires WellFormedFields(fields) && RF.OnlyOne(fields, "Host", host) && Req.Allowed(fields)
    requires Req.IsLength(fields, length) && length <= limits.maxBody
    requires |HeadText(verb + " " + target + " HTTP/1.1", fields)| <= limits.maxHeader
    ensures var r := RequestOf(limits, client, HeadText(verb + " " + target + " HTTP/1.1", fields));
            && r.Ok? && r.value.verb == verb && r.value.target == target && r.value.host == host && r.value.length == length
            && (r.value.close <==> ListsToken(HeaderValue(fields, "Connection"), "close"))
  {
    hide Find, ParseBlock, Req.ParseRequestLine, Req.Validate, HeadText, HeaderValue, ListsToken, Req.Allowed, Req.IsLength;
    hide AllToken, AllTarget, RF.OnlyOne, ToUpstream.UpstreamHead;
    var line := Req.RequestLine(verb, target, "HTTP/1.1");
    var start := verb + " " + target + " HTTP/1.1";
    StartText(line);
    assert start == verb + " " + target + " " + "HTTP/1.1";
    RequestLineExactness(start, line);
    ToUpstream.StartLineParses(line);
    OnlyOneIsOne(fields, host);
    PrintedHead(start, fields, "");
    StartsWith(start, fields, "");
    assert HeadText(start, fields) + "" == HeadText(start, fields);
    RF.OnlyOneIsTheValue(fields, "Host", host);
    Req.ValidationExactness(limits, fields, |HeadText(start, fields)|, length);
  }

  /** The same request with a longer body than the limit is told that it is too large. */
  lemma PrintedTooLarge(limits: Req.Limits, client: string, verb: string, target: string, fields: seq<HeaderField>,
                       host: string, length: nat)
    requires verb != "" && AllToken(verb) && target != "" && AllTarget(target) && Req.ValidLimits(limits)
    requires WellFormedFields(fields) && RF.OnlyOne(fields, "Host", host) && Req.Allowed(fields)
    requires Req.IsLength(fields, length) && length > limits.maxBody
    requires |HeadText(verb + " " + target + " HTTP/1.1", fields)| <= limits.maxHeader
    ensures RequestOf(limits, client, HeadText(verb + " " + target + " HTTP/1.1", fields)) == Err(true)
  {
    hide Find, ParseBlock, Req.ParseRequestLine, Req.Validate, HeadText, Req.Allowed, AllToken, AllTarget, RF.OnlyOne;
    hide HeaderValue, ToUpstream.UpstreamHead, Req.IsLength, ListsToken;
    var line := Req.RequestLine(verb, target, "HTTP/1.1");
    var start := verb + " " + target + " HTTP/1.1";
    StartText(line);
    assert start == verb + " " + target + " " + "HTTP/1.1";
    RequestLineExactness(start, line);
    ToUpstream.StartLineParses(line);
    OnlyOneIsOne(fields, host);
    PrintedHead(start, fields, "");
    StartsWith(start, fields, "");
    assert HeadText(start, fields) + "" == HeadText(start, fields);
    TooLong(limits, fields, |HeadText(start, fields)|, length);
  }

  lemma TooLong(limits: Req.Limits, fields: seq<HeaderField>, headerBytes: nat, length: nat)
    requires Req.Hosts(fields) == 1 && Req.Allowed(fields) && Req.IsLength(fields, length) && length > limits.maxBody
    ensures Req.Validate(limits, fields, headerBytes) == Err(Req.BodyTooLarge)
  {
    hide Req.NoteHeaders;
    Req.NoteHeadersMeaning(Req.Framing(0, None), fields);
    Req.NoteHeadersAccepts(Req.Framing(0, None), fields, length);
  }

  lemma OnlyOneIsOne(hs: seq<HeaderField>, value: string)
    requires RF.OnlyOne(hs, "Host", value)
    ensures Req.Hosts(hs) == 1 && hs != []
  {
    hide Named;
    var i :| 0 <= i < |hs| && Named(hs[i], "Host") && hs[i].value == value
             && forall j | 0 <= j < |hs| && j != i :: !Named(hs[j], "Host");
    OneAmong(hs[..i], hs[i], hs[i + 1..]);
    assert hs == hs[..i] + ([hs[i]] + hs[i + 1..]);
  }

  lemma OneAmong(before: seq<HeaderField>, h: HeaderField, after: seq<HeaderField>)
    requires Named(h, "Host") && RF.Without(before, "Host") && RF.Without(after, "Host")
    ensures Req.Hosts(before + ([h] + after)) == 1
  {
    hide Named;
    ToUpstream.HostsAppend(before, [h] + after);
    ToUpstream.HostAmong(before);
    ToUpstream.HostAmong(after);
    assert ([h] + after)[1..] == after;
  }
}
