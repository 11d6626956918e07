/** The request head sent upstream, and what an upstream parser reads from it. */
module RequestRewriting {
  import opened Text
  import opened HeaderFields
  import opened MessageText
  import opened Rewriting
  import opened RequestParsing

  /** Names the proxy writes itself. */
  const REGENERATED: set<string> :=
    {"host", "content-length", "x-forwarded-for", "x-forwarded-host", "x-forwarded-proto"}

  function StartLine(line: RequestLine): string { line.verb + " " + line.target + " " + line.version }

  function Dropped(headers: seq<HeaderField>): set<string> { Removed(headers) + REGENERATED }

  function LengthField(headers: seq<HeaderField>): seq<HeaderField> {
    var length := HeaderValue(headers, "Content-Length");
    if length.Some? then [HeaderField("Content-Length", length.value)] else []
  }

  /** The fields appended after the surviving ones. */
  function OwnFields(headers: seq<HeaderField>, client: string): seq<HeaderField>
    requires HeaderValue(headers, "Host").Some?
  {
    var host := HeaderValue(headers, "Host").value;
    [HeaderField("Host", host)] + LengthField(headers)
    + [HeaderField("X-Forwarded-For", client), HeaderField("X-Forwarded-Host", host),
       HeaderField("X-Forwarded-Proto", "http"), HeaderField("Connection", "close")]
  }

  function UpstreamFields(headers: seq<HeaderField>, client: string): seq<HeaderField>
    requires HeaderValue(headers, "Host").Some?
  {
    Kept(headers, Dropped(headers)) + OwnFields(headers, client)
  }

  function UpstreamHead(head: Head, client: string): string
    requires HeaderValue(head.headers, "Host").Some?
  {
    HeadText(StartLine(head.line), UpstreamFields(head.headers, client))
  }

  /** The fields as the rewriter appends them, one after the other. */
  lemma FieldsInOrder(headers: seq<HeaderField>, client: string)
    requires HeaderValue(headers, "Host").Some?
    ensures var host := HeaderValue(headers, "Host").value;
            var first := Kept(headers, Dropped(headers)) + [HeaderField("Host", host)];
            && (LengthField(headers) == [] ==> first + LengthField(headers) == first)
            && first + LengthField(headers) + [HeaderField("X-Forwarded-For", client)] + [HeaderField("X-Forwarded-Host", host)]
               + [HeaderField("X-Forwarded-Proto", "http")] + [HeaderField("Connection", "close")] ==
               UpstreamFields(headers, client)
  {
    hide HeaderValue, Kept, LengthField;
    var host := HeaderValue(headers, "Host").value;
    OneByOne(Kept(headers, Dropped(headers)), HeaderField("Host", host), LengthField(headers), HeaderField("X-Forwarded-For", client),
             HeaderField("X-Forwarded-Host", host), HeaderField("X-Forwarded-Proto", "http"), HeaderField("Connection", "close"));
  }

  lemma OneByOne(kept: seq<HeaderField>, host: HeaderField, length: seq<HeaderField>, a: HeaderField, b: HeaderField,
                 c: HeaderField, d: HeaderField)
    ensures kept + [host] + length + [a] + [b] + [c] + [d] == kept + ([host] + length + [a, b, c, d])
    ensures length == [] ==> kept + [host] + length == kept + [host]
  {
  }

  method RewriteRequestHeadForUpstream(head: Head, client: string) returns (message: string)
    requires HeaderValue(head.headers, "Host").Some?
    ensures message == UpstreamHead(head, client)
  {
    hide Removed, HeaderValue, HeadSoFar, Kept, UpstreamFields;
    var removed := HopByHopHeaders(head.headers);
    var kept := Kept(head.headers, Dropped(head.headers));
    message := CopyHeaders(StartLine(head.line), head.headers, removed + REGENERATED);
    var host := HeaderValue(head.headers, "Host").value;
    ghost var start, fields := StartLine(head.line), kept;
    FieldsInOrder(head.headers, client);
    message := AppendHeader(message, HeaderField("Host", host), start, fields);
    fields := fields + [HeaderField("Host", host)];
    var length := HeaderValue(head.headers, "Content-Length");
    if length.Some? {
      message := AppendHeader(message, HeaderField("Content-Length", length.value), start, fields);
    }
    fields := fields + LengthField(head.headers);
    message := AppendHeader(message, HeaderField("X-Forwarded-For", client), start, fields);
    fields := fields + [HeaderField("X-Forwarded-For", client)];
    message := AppendHeader(message, HeaderField("X-Forwarded-Host", host), start, fields);
    fields := fields + [HeaderField("X-Forwarded-Host", host)];
    message := AppendHeader(message, HeaderField("X-Forwarded-Proto", "http"), start, fields);
    fields := fields + [HeaderField("X-Forwarded-Proto", "http")];
    message := AppendHeader(message, HeaderField("Connection", "close"), start, fields);
    fields := fields + [HeaderField("Connection", "close")];
    message := message + CRLF;
    HeadTextIs(start, fields);
  }

  method RewriteRequestForUpstream(head: Head, body: string, client: string) returns (message: string)
    requires HeaderValue(head.headers, "Host").Some?
    ensures message == UpstreamHead(head, client) + body
  {
    message := RewriteRequestHeadForUpstream(head, client);
    if body != "" {
      message := message + body;
    } else {
      assert message + "" == message;
    }
  }

  // ---------------------------------------------------------------- what an accepted request looks like

  predicate WellFormedHead(head: Head) {
    && WellFormedLine(head.line) && WellFormedFields(head.headers)
    && Hosts(head.headers) == 1 && Allowed(head.headers) && IsLength(head.headers, head.contentLength)
  }

  lemma AcceptedHead(limits: Limits, buffer: string)
    requires ValidLimits(limits)
    ensures var p := Parse(limits, buffer);
            && (p.AwaitingBody? || p.Complete? ==>
                  && WellFormedHead(p.head) && p.head.contentLength <= limits.maxBody
                  && 4 <= p.head.headerBytes <= |buffer| && p.head.headerBytes <= limits.maxHeader)
            && (p.Complete? ==> |buffer| == p.head.headerBytes + p.head.contentLength)
  {
    hide Find, ParseRequestLine, ParseBlock, Validate, WellFormedLine, Allowed, IsLength, Hosts;
    var p := Parse(limits, buffer);
    if p.AwaitingBody? || p.Complete? {
      ValidationExactness(limits, p.head.headers, p.head.headerBytes, p.head.contentLength);
    }
  }

  lemma {:induction false} HostAmong(hs: seq<HeaderField>)
    ensures Hosts(hs) == 0 <==> forall i | 0 <= i < |hs| :: !Named(hs[i], "Host")
    decreases |hs|
  {
    hide Named;
    if hs != [] {
      HostAmong(hs[1..]);
      assert forall i | 1 <= i < |hs| :: hs[i] == hs[1..][i - 1];
    }
  }

  lemma {:induction false} HostsAppend(a: seq<HeaderField>, b: seq<HeaderField>)
    ensures Hosts(a + b) == Hosts(a) + Hosts(b)
    decreases |a|
  {
    hide Named;
    if a == [] {
      assert a + b == b;
    } else {
      assert (a + b)[0] == a[0] && (a + b)[1..] == a[1..] + b;
      HostsAppend(a[1..], b);
    }
  }

  lemma {:induction false} HeaderValueSkips(a: seq<HeaderField>, b: seq<HeaderField>, name: string)
    requires forall i | 0 <= i < |a| :: !Named(a[i], name)
    ensures HeaderValue(a + b, name) == HeaderValue(b, name)
    decreases |a|
  {
    hide Named;
    if a == [] {
      assert a + b == b;
    } else {
      assert (a + b)[0] == a[0] && (a + b)[1..] == a[1..] + b;
      assert forall i | 0 <= i < |a[1..]| :: a[1..][i] == a[i + 1];
      HeaderValueSkips(a[1..], b, name);
    }
  }

  lemma HostOf(head: Head)
    requires WellFormedHead(head)
    ensures var host := HeaderValue(head.headers, "Host");
            host.Some? && host.value != "" && AllFieldValue(host.value) && Trimmed(host.value)
  {
    hide Named, AllFieldValue, Trimmed;
    HostAmong(head.headers);
  }

  lemma LengthOf(head: Head)
    requires WellFormedHead(head)
    ensures var length := HeaderValue(head.headers, "Content-Length");
            && (length.Some? ==> SizeOf(10, length.value) == Some(head.contentLength)
                                 && AllFieldValue(length.value) && Trimmed(length.value))
            && (length.None? ==> head.contentLength == 0)
  {
    hide Named, AllFieldValue, Trimmed, SizeOf;
  }

  predicate ValidClient(client: string) { AllFieldValue(client) && Trimmed(client) }

  lemma OwnFieldsWellFormed(head: Head, client: string)
    requires WellFormedHead(head) && ValidClient(client) && HeaderValue(head.headers, "Host").Some?
    ensures WellFormedFields(OwnFields(head.headers, client))
  {
    hide AllFieldValue, Trimmed, AllToken, HeaderValue;
    HostOf(head);
    LengthOf(head);
    FixedNames();
    FixedValues();
  }

  /** A kept header is none of the regenerated ones. */
  lemma KeptNames(headers: seq<HeaderField>, h: HeaderField)
    requires h in Kept(headers, Dropped(headers))
    ensures h in headers && !Named(h, "Host") && !Named(h, "Content-Length") && !Named(h, "Connection")
    ensures !Named(h, "Transfer-Encoding")
  {
    hide Kept, ConnectionTokens, Lower;
    LowerNames();
  }

  predicate NotFraming(name: string) {
    && !EqualsIgnoreCase(name, "Host") && !EqualsIgnoreCase(name, "Transfer-Encoding")
    && !EqualsIgnoreCase(name, "Expect") && !EqualsIgnoreCase(name, "Content-Length")
  }

  lemma OwnNames()
    ensures NotFraming("X-Forwarded-For") && NotFraming("X-Forwarded-Host")
    ensures NotFraming("X-Forwarded-Proto") && NotFraming("Connection")
    ensures !EqualsIgnoreCase("Host", "Transfer-Encoding") && !EqualsIgnoreCase("Host", "Expect")
    ensures !EqualsIgnoreCase("Host", "Content-Length") && !EqualsIgnoreCase("Content-Length", "Host")
    ensures !EqualsIgnoreCase("Content-Length", "Expect") && !EqualsIgnoreCase("Content-Length", "Transfer-Encoding")
  {
    hide Lower;
    LowerNames();
    LowerForwardedNames();
    assert "connection"[0] != "expect"[0] && "host"[0] != "transfer-encoding"[0];
    assert |"x-forwarded-for"| == 15 && |"x-forwarded-host"| == 16 && |"x-forwarded-proto"| == 17;
    assert |"transfer-encoding"| == 17 && "x-forwarded-proto"[0] == 'x' && "transfer-encoding"[0] == 't';
    assert |"connection"| == 10 && |"host"| == 4 && |"expect"| == 6 && |"content-length"| == 14;
  }

  /** The fields the proxy adds: one Host, the agreed length, nothing else about framing. */
  lemma OwnFieldsFraming(head: Head, client: string)
    requires WellFormedHead(head) && HeaderValue(head.headers, "Host").Some?
    ensures var own := OwnFields(head.headers, client);
            && Hosts(own) == 1 && Allowed(own) && IsLength(own, head.contentLength)
            && HeaderValue(own, "Host") == HeaderValue(head.headers, "Host")
  {
    hide EqualsIgnoreCase, SizeOf, AllFieldValue, Trimmed, HeaderValue, IsLength, Allowed, Hosts, OwnFields;
    OwnNames();
    HostOf(head);
    OwnHost(head.headers, client);
    OwnAllowed(head.headers, client);
    OwnLength(head, client);
  }

  lemma OwnHost(headers: seq<HeaderField>, client: string)
    requires HeaderValue(headers, "Host").Some?
    ensures var own := OwnFields(headers, client);
            Hosts(own) == 1 && HeaderValue(own, "Host") == HeaderValue(headers, "Host")
  {
    hide EqualsIgnoreCase;
    OwnNames();
    var own := OwnFields(headers, client);
    assert own[0].name == "Host";
    HostAmong(own[1..]);
    SameName("Host");
  }

  lemma OwnAllowed(headers: seq<HeaderField>, client: string)
    requires HeaderValue(headers, "Host").Some? && HeaderValue(headers, "Host").value != ""
    ensures Allowed(OwnFields(headers, client))
  {
    hide EqualsIgnoreCase, HeaderValue;
    OwnNames();
  }

  lemma OwnLength(head: Head, client: string)
    requires WellFormedHead(head) && HeaderValue(head.headers, "Host").Some?
    ensures IsLength(OwnFields(head.headers, client), head.contentLength)
  {
    hide EqualsIgnoreCase, SizeOf, AllFieldValue, Trimmed, HeaderValue, Hosts, Allowed;
    OwnNames();
    LengthOf(head);
    SameName("Content-Length");
    var own := OwnFields(head.headers, client);
    if LengthField(head.headers) != [] {
      assert own[1] == LengthField(head.headers)[0];
    }
  }

  lemma SameName(name: string)
    ensures EqualsIgnoreCase(name, name)
  {
  }

  lemma UpstreamFraming(head: Head, client: string)
    requires WellFormedHead(head) && HeaderValue(head.headers, "Host").Some?
    ensures var fields := UpstreamFields(head.headers, client);
            && Hosts(fields) == 1 && Allowed(fields) && IsLength(fields, head.contentLength)
            && HeaderValue(fields, "Host") == HeaderValue(head.headers, "Host")
  {
    hide Named, SizeOf, Kept, OwnFields, HeaderValue, Hosts;
    var kept, own := Kept(head.headers, Dropped(head.headers)), OwnFields(head.headers, client);
    forall i | 0 <= i < |kept|
      ensures kept[i] in head.headers && !Named(kept[i], "Host") && !Named(kept[i], "Content-Length")
    {
      KeptNames(head.headers, kept[i]);
    }
    OwnFieldsFraming(head, client);
    HostAmong(kept);
    HostsAppend(kept, own);
    HeaderValueSkips(kept, own, "Host");
    forall i | 0 <= i < |kept + own| ensures (kept + own)[i] in head.headers || (kept + own)[i] in own {
    }
    if head.contentLength != 0 {
      var i :| 0 <= i < |own| && Named(own[i], "Content-Length");
      assert (kept + own)[|kept| + i] == own[i];
    }
  }

  // ---------------------------------------------------------------- round trip

  lemma StartLineLacks(line: RequestLine)
    requires WellFormedLine(line)
    ensures Lacks(line.verb, ' ') && Lacks(line.target, ' ') && Lacks(line.version, ' ')
    ensures Lacks(StartLine(line), '\r')
  {
    assert Lacks(line.verb, '\r') && Lacks(line.target, '\r') && Lacks(line.version, '\r') && Lacks(" ", '\r');
    LacksAppend(line.verb, " ", '\r');
    LacksAppend(line.verb + " ", line.target, '\r');
    LacksAppend(line.verb + " " + line.target, " ", '\r');
    LacksAppend(line.verb + " " + line.target + " ", line.version, '\r');
  }

  lemma StartLineParses(line: RequestLine)
    requires WellFormedLine(line)
    ensures ParseRequestLine(StartLine(line)) == Ok(line) && Lacks(StartLine(line), '\r')
  {
    hide Find, AllToken, AllTarget, StartLine;
    StartLineLacks(line);
    StartLineLayout(line);
    FindSeparator("", line.verb, line.target + " " + line.version, ' ');
    FindSeparator(line.verb + " ", line.target, line.version, ' ');
    FindNoSeparator(line.verb + " " + line.target + " ", line.version, ' ');
  }

  lemma StartLineLayout(line: RequestLine)
    ensures var s, first, second := StartLine(line), |line.verb|, |line.verb| + 1 + |line.target|;
            && |s| == second + 1 + |line.version|
            && s == "" + line.verb + [' '] + (line.target + " " + line.version)
            && s == (line.verb + " ") + line.target + [' '] + line.version
            && s == (line.verb + " " + line.target + " ") + line.version
            && s[..first] == line.verb && s[first + 1..second] == line.target && s[second + 1..] == line.version
  {
  }

  /** An upstream parser with room for it reads the same request from the rewritten head followed
  by the body: same start line, same content length, exactly the rewritten fields. */
  lemma RequestRoundTrip(limits: Limits, buffer: string, client: string, upstream: Limits)
    requires ValidLimits(limits) && Parse(limits, buffer).Complete?
    requires ValidClient(client) && ValidLimits(upstream)
    ensures var head := Parse(limits, buffer).head;
            && HeaderValue(head.headers, "Host").Some? && head.headerBytes <= |buffer|
            && (|UpstreamHead(head, client)| <= upstream.maxHeader && head.contentLength <= upstream.maxBody ==>
                  Parse(upstream, UpstreamHead(head, client) + buffer[head.headerBytes..]) ==
                  Complete(Head(head.line, UpstreamFields(head.headers, client),
                                |UpstreamHead(head, client)|, head.contentLength)))
  {
    hide Find, ParseRequestLine, ParseBlock, Validate, UpstreamFields, WellFormedHead, HeaderValue, Parse, AfterLine;
    var head := Parse(limits, buffer).head;
    AcceptedHead(limits, buffer);
    HostOf(head);
    if |UpstreamHead(head, client)| <= upstream.maxHeader && head.contentLength <= upstream.maxBody {
      HeadRoundTrip(head, client, upstream, buffer[head.headerBytes..]);
    }
  }

  lemma UpstreamFieldsWellFormed(head: Head, client: string)
    requires WellFormedHead(head) && ValidClient(client) && HeaderValue(head.headers, "Host").Some?
    ensures WellFormedFields(UpstreamFields(head.headers, client)) && UpstreamFields(head.headers, client) != []
  {
    hide Kept, HeaderValue, WellFormedField;
    KeptWellFormed(head.headers, Dropped(head.headers));
    OwnFieldsWellFormed(head, client);
  }

  lemma HeadRoundTrip(head: Head, client: string, upstream: Limits, body: string)
    requires WellFormedHead(head) && HeaderValue(head.headers, "Host").Some?
    requires ValidClient(client) && ValidLimits(upstream)
    requires |UpstreamHead(head, client)| <= upstream.maxHeader && head.contentLength <= upstream.maxBody
    requires |body| == head.contentLength
    ensures var text := UpstreamHead(head, client);
            Parse(upstream, text + body) ==
            Complete(Head(head.line, UpstreamFields(head.headers, client), |text|, head.contentLength))
  {
    hide Find, ParseRequestLine, ParseBlock, Validate, UpstreamFields, HeaderValue, HeadText;
    var fields := UpstreamFields(head.headers, client);
    var text := UpstreamHead(head, client);
    var s := text + body;
    StartLineParses(head.line);
    UpstreamFieldsWellFormed(head, client);
    PrintedHead(StartLine(head.line), fields, body);
    StartsWith(StartLine(head.line), fields, body);
    UpstreamFraming(head, client);
    ValidationExactness(upstream, fields, |text|, head.contentLength);
  }

  // ---------------------------------------------------------------- what travels

  /** End-to-end headers reach the upstream unchanged and in order; whatever else carries a
  hop-by-hop, Connection-listed or regenerated name is one of the proxy's own fields; and there
  is exactly one Host, with the client's value. */
  lemma WhatTravels(head: Head, client: string)
    requires WellFormedHead(head) && HeaderValue(head.headers, "Host").Some?
    ensures var fields := UpstreamFields(head.headers, client);
            var dropped := Dropped(head.headers);
            && Kept(fields, dropped) == Kept(head.headers, dropped)
            && (forall f :: f in fields && Lower(f.name) in dropped ==> f in OwnFields(head.headers, client))
            && Hosts(fields) == 1 && HeaderValue(fields, "Host") == HeaderValue(head.headers, "Host")
  {
    hide Hosts, HeaderValue, Lower, Kept, Allowed, IsLength;
    var dropped := Dropped(head.headers);
    var kept, own := Kept(head.headers, dropped), OwnFields(head.headers, client);
    UpstreamFraming(head, client);
    LowerNames();
    LowerForwardedNames();
    KeptNone(own, dropped);
    KeptAgain(head.headers, dropped);
    KeptAppend(kept, own, dropped);
    assert kept + [] == kept;
  }
}
