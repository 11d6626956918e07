/** The response head sent to the client, and what a client parser reads from it. */
module ResponseRewriting {
  import opened Text
  import opened HeaderFields
  import opened MessageText
  import opened Rewriting
  import opened ResponseParsing
  import ChunkedDecoder
  import Pieces = ResponseFragmentation

  function StartLine(line: StatusLine): string { line.version + " " + Decimal(line.code) + " " + line.reason }

  function Dropped(headers: seq<HeaderField>): set<string> { Removed(headers) + {"content-length"} }

  /** A bodiless response keeps the length its header announced. */
  function AnnouncedLength(headers: seq<HeaderField>): seq<HeaderField> {
    var length := HeaderValue(headers, "Content-Length");
    if length.Some? then [HeaderField("Content-Length", length.value)] else []
  }

  /** Framing of a relayed body: the original chunks or length are kept. */
  function RelayFraming(head: Head): seq<HeaderField> {
    match head.mode
    case ContentLength(n) => [HeaderField("Content-Length", Decimal(n))]
    case Chunked => [HeaderField("Transfer-Encoding", "chunked")]
    case NoBody => AnnouncedLength(head.headers)
    case CloseDelimited => []
  }

  /** Framing of a body that was decoded and is sent whole. */
  function WholeFraming(head: Head, body: string): seq<HeaderField> {
    if head.mode != NoBody then [HeaderField("Content-Length", Decimal(|body|))] else AnnouncedLength(head.headers)
  }

  function ConnectionField(close: bool): HeaderField {
    HeaderField("Connection", if close then "close" else "keep-alive")
  }

  function ClientFields(head: Head, framing: seq<HeaderField>, close: bool): seq<HeaderField> {
    Kept(head.headers, Dropped(head.headers)) + framing + [ConnectionField(close)]
  }

  function ClientHead(head: Head, framing: seq<HeaderField>, close: bool): string {
    HeadText(StartLine(head.line), ClientFields(head, framing, close))
  }

  method AppendFraming(head: Head, framing: seq<HeaderField>, close: bool) returns (message: string)
    requires |framing| <= 1
    ensures message == ClientHead(head, framing, close)
  {
    hide Removed, HeadSoFar, Kept, HeadText;
    var removed := HopByHopHeaders(head.headers);
    var start := StartLine(head.line);
    message := CopyHeaders(start, head.headers, removed + {"content-length"});
    ghost var fields := Kept(head.headers, Dropped(head.headers));
    if framing != [] {
      message := AppendHeader(message, framing[0], start, fields);
      fields := fields + [framing[0]];
    }
    message := AppendHeader(message, ConnectionField(close), start, fields);
    fields := fields + [ConnectionField(close)];
    assert fields == ClientFields(head, framing, close);
    message := message + CRLF;
    HeadTextIs(start, fields);
  }

  method RewriteResponseHeadForClient(head: Head, close: bool) returns (message: string)
    ensures message == ClientHead(head, RelayFraming(head), close)
  {
    message := AppendFraming(head, RelayFraming(head), close);
  }

  method RewriteResponseForClient(head: Head, body: string, close: bool) returns (message: string)
    ensures message == ClientHead(head, WholeFraming(head, body), close) + if head.mode != NoBody then body else ""
  {
    message := AppendFraming(head, WholeFraming(head, body), close);
    if head.mode != NoBody && body != "" {
      message := message + body;
    } else {
      assert message + "" == message;
    }
  }

  // ---------------------------------------------------------------- the status line

  lemma StatusLineParses(line: StatusLine)
    requires line.version in {"HTTP/1.0", "HTTP/1.1"} && 100 <= line.code <= 599 && AllFieldValue(line.reason)
    ensures ParseStatusLine(StartLine(line)) == Ok(line) && Lacks(StartLine(line), '\r')
  {
    hide Find, AllFieldValue, Decimal, StartLine;
    DecimalThree(line.code);
    StartLineLayout(line);
    FindSeparator("", line.version, Decimal(line.code) + " " + line.reason, ' ');
    StartLineLacks(line);
  }

  lemma StartLineLayout(line: StatusLine)
    requires |line.version| == 8 && |Decimal(line.code)| == 3
    ensures var s, code := StartLine(line), Decimal(line.code);
            && s == "" + line.version + [' '] + (code + " " + line.reason) && |s| >= 13 && s[..8] == line.version
            && s[9] == code[0] && s[10] == code[1] && s[11] == code[2] && s[12] == ' ' && s[13..] == line.reason
  {
    hide Decimal;
  }

  lemma StartLineLacks(line: StatusLine)
    requires line.version in {"HTTP/1.0", "HTTP/1.1"} && AllFieldValue(line.reason)
    ensures Lacks(StartLine(line), '\r')
  {
    var code := Decimal(line.code);
    assert Lacks(code, '\r') && Lacks(line.version, '\r') && Lacks(line.reason, '\r') && Lacks(" ", '\r');
    LacksAppend(line.version, " ", '\r');
    LacksAppend(line.version + " ", code, '\r');
    LacksAppend(line.version + " " + code, " ", '\r');
    LacksAppend(line.version + " " + code + " ", line.reason, '\r');
  }

  // ---------------------------------------------------------------- framing of the rewritten head

  predicate Unframed(h: HeaderField) { !Named(h, "Content-Length") && !Named(h, "Transfer-Encoding") }

  predicate AllUnframed(hs: seq<HeaderField>) { forall i | 0 <= i < |hs| :: Unframed(hs[i]) }

  lemma {:induction false} NoteUnframed(seen: Framing, hs: seq<HeaderField>, rest: seq<HeaderField>)
    requires AllUnframed(hs)
    ensures NoteHeaders(seen, hs + rest) == NoteHeaders(seen, rest)
    decreases |hs|
  {
    hide Named, SizeOf;
    if hs == [] {
      assert hs + rest == rest;
    } else {
      assert (hs + rest)[0] == hs[0] && (hs + rest)[1..] == hs[1..] + rest;
      assert forall i | 0 <= i < |hs[1..]| :: hs[1..][i] == hs[i + 1];
      NoteUnframed(seen, hs[1..], rest);
    }
  }

  lemma KeptUnframed(headers: seq<HeaderField>)
    ensures AllUnframed(Kept(headers, Dropped(headers)))
  {
    hide Lower, ConnectionTokens;
    LowerNames();
    var kept := Kept(headers, Dropped(headers));
    forall i | 0 <= i < |kept| ensures Unframed(kept[i]) {
      assert kept[i] in kept;
    }
  }

  lemma ConnectionUnframed(close: bool)
    ensures Unframed(ConnectionField(close))
  {
    hide Lower;
    LowerNames();
    assert |"connection"| == 10 && |"content-length"| == 14 && |"transfer-encoding"| == 17;
  }

  /** The rewritten headers frame the body by the one framing field, or not at all. */
  lemma ClientFraming(head: Head, framing: seq<HeaderField>, close: bool)
    ensures NoteHeaders(Framing(None, false), ClientFields(head, framing, close)) ==
            NoteHeaders(Framing(None, false), framing + [ConnectionField(close)])
  {
    hide NoteHeaders, Unframed;
    var kept := Kept(head.headers, Dropped(head.headers));
    KeptUnframed(head.headers);
    NoteUnframed(Framing(None, false), kept, framing + [ConnectionField(close)]);
    assert kept + framing + [ConnectionField(close)] == kept + (framing + [ConnectionField(close)]);
  }

  lemma NoteNothing(close: bool)
    ensures NoteHeaders(Framing(None, false), [] + [ConnectionField(close)]) == Ok(Framing(None, false))
  {
    hide Unframed;
    ConnectionUnframed(close);
    NoteUnframed(Framing(None, false), [ConnectionField(close)], []);
    assert [] + [ConnectionField(close)] == [ConnectionField(close)] + [];
  }

  lemma NoteLength(value: string, n: nat, close: bool)
    requires SizeOf(10, value) == Some(n)
    ensures NoteHeaders(Framing(None, false), [HeaderField("Content-Length", value)] + [ConnectionField(close)]) ==
            Ok(Framing(Some(n), false))
  {
    hide Unframed, SizeOf, Lower;
    LowerNames();
    var h := HeaderField("Content-Length", value);
    assert NoteHeader(Framing(None, false), h) == Ok(Framing(Some(n), false)) by {
      assert |"content-length"| == 14 && |"transfer-encoding"| == 17;
    }
    NoteFirst(h, Framing(Some(n), false), close);
  }

  lemma NoteChunked(close: bool)
    ensures NoteHeaders(Framing(None, false), [HeaderField("Transfer-Encoding", "chunked")] + [ConnectionField(close)]) ==
            Ok(Framing(None, true))
  {
    hide Unframed, SizeOf, Lower;
    LowerNames();
    var h := HeaderField("Transfer-Encoding", "chunked");
    assert NoteHeader(Framing(None, false), h) == Ok(Framing(None, true)) by {
      assert |"content-length"| == 14 && |"transfer-encoding"| == 17;
    }
    NoteFirst(h, Framing(None, true), close);
  }

  lemma NoteFirst(h: HeaderField, seen: Framing, close: bool)
    requires NoteHeader(Framing(None, false), h) == Ok(seen)
    ensures NoteHeaders(Framing(None, false), [h] + [ConnectionField(close)]) == Ok(seen)
  {
    hide NoteHeader, Unframed;
    ConnectionUnframed(close);
    NoteUnframed(seen, [ConnectionField(close)], []);
    assert [ConnectionField(close)] + [] == [ConnectionField(close)];
    assert ([h] + [ConnectionField(close)])[1..] == [ConnectionField(close)];
  }

  // ---------------------------------------------------------------- what an accepted response looks like

  predicate WellFormedHead(setup: Setup, head: Head) {
    && head.line.version in {"HTTP/1.0", "HTTP/1.1"} && 100 <= head.line.code <= 599
    && AllFieldValue(head.line.reason) && WellFormedFields(head.headers)
    && head.headerBytes <= setup.maxHeader
    && SelectBodyMode(setup, head.line.code, head.headers, head.headerBytes) == Ok(head.mode)
  }

  lemma AcceptedHead(setup: Setup, buffer: string)
    ensures var p := Parse(setup, buffer);
            (p.AwaitingBody? || p.Complete? ==>
               WellFormedHead(setup, p.head) && HasHead(setup, buffer, p.head) && p.head.headerBytes <= |buffer|)
  {
    hide Find, ParseStatusLine, ParseBlock, SelectBodyMode, AllFieldValue, Run;
    HeadOf(setup, buffer);
  }

  lemma {:induction false} LengthNoted(seen: Framing, hs: seq<HeaderField>)
    ensures NoteHeaders(seen, hs).Ok? ==>
              forall i | 0 <= i < |hs| && Named(hs[i], "Content-Length") :: SizeOf(10, hs[i].value).Some?
    decreases |hs|
  {
    hide Named, SizeOf, EqualsIgnoreCase;
    if hs != [] && NoteHeader(seen, hs[0]).Ok? {
      LengthNoted(NoteHeader(seen, hs[0]).value, hs[1..]);
      assert forall i | 1 <= i < |hs| :: hs[i] == hs[1..][i - 1];
    }
  }

  /** A framing choice: at most one field, well formed, read back as `seen`. */
  ghost predicate FramesAs(framing: seq<HeaderField>, seen: Framing) {
    && WellFormedFields(framing)
    && forall close :: NoteHeaders(Framing(None, false), framing + [ConnectionField(close)]) == Ok(seen)
  }

  lemma DecimalIsFieldValue(n: nat)
    ensures AllFieldValue(Decimal(n)) && Trimmed(Decimal(n))
  {
    assert forall i | 0 <= i < |Decimal(n)| :: DigitOf(10, Decimal(n)[i]).Some?;
  }

  lemma LengthFramesAs(value: string, n: nat)
    requires SizeOf(10, value) == Some(n) && AllFieldValue(value) && Trimmed(value)
    ensures FramesAs([HeaderField("Content-Length", value)], Framing(Some(n), false))
  {
    hide SizeOf, AllFieldValue, Trimmed, NoteHeaders, ConnectionField;
    FixedNames();
    forall close ensures NoteHeaders(Framing(None, false), [HeaderField("Content-Length", value)] + [ConnectionField(close)]) ==
                         Ok(Framing(Some(n), false)) {
      NoteLength(value, n, close);
    }
  }

  lemma AnnouncedFramesAs(setup: Setup, head: Head)
    requires WellFormedHead(setup, head)
    ensures exists length :: FramesAs(AnnouncedLength(head.headers), Framing(length, false))
  {
    hide SizeOf, AllFieldValue, Trimmed, NoteHeaders, Named, FramesAs, Bodiless;
    var length := HeaderValue(head.headers, "Content-Length");
    if length.Some? {
      LengthNoted(Framing(None, false), head.headers);
      LengthFramesAs(length.value, SizeOf(10, length.value).value);
    } else {
      NothingFramesAs();
    }
  }

  lemma NothingFramesAs()
    ensures FramesAs([], Framing(None, false))
  {
    hide NoteHeaders, ConnectionField;
    forall close ensures NoteHeaders(Framing(None, false), [] + [ConnectionField(close)]) == Ok(Framing(None, false)) {
      NoteNothing(close);
    }
  }

  lemma ChunkedFramesAs()
    ensures FramesAs([HeaderField("Transfer-Encoding", "chunked")], Framing(None, true))
  {
    hide NoteHeaders, ConnectionField;
    FixedValues();
    forall close ensures NoteHeaders(Framing(None, false), [HeaderField("Transfer-Encoding", "chunked")] + [ConnectionField(close)]) ==
                         Ok(Framing(None, true)) {
      NoteChunked(close);
    }
  }

  /** What a framing field may say to a client of this response. */
  predicate Suits(client: Setup, head: Head, seen: Framing) {
    && (seen.chunked ==> seen.length.None?)
    && (Bodiless(client.verb, head.line.code) || (seen.length.Some? ==> seen.length.value <= client.maxBody))
  }

  function ModeOf(client: Setup, head: Head, seen: Framing): BodyMode {
    if Bodiless(client.verb, head.line.code) then NoBody
    else if seen.chunked then Chunked
    else if seen.length.Some? then ContentLength(seen.length.value)
    else CloseDelimited
  }

  /** The body mode a client reads from the rewritten headers. */
  lemma ClientMode(client: Setup, head: Head, framing: seq<HeaderField>, seen: Framing, close: bool, headerBytes: nat)
    requires FramesAs(framing, seen) && Suits(client, head, seen)
    requires ValidSetup(client) && headerBytes <= client.maxHeader
    ensures SelectBodyMode(client, head.line.code, ClientFields(head, framing, close), headerBytes) ==
            Ok(ModeOf(client, head, seen))
  {
    hide NoteHeaders, Bodiless, ClientFields;
    ClientFraming(head, framing, close);
  }

  lemma ClientFieldsWellFormed(head: Head, framing: seq<HeaderField>, close: bool)
    requires WellFormedFields(head.headers) && WellFormedFields(framing)
    ensures WellFormedFields(ClientFields(head, framing, close)) && ClientFields(head, framing, close) != []
  {
    hide Kept, WellFormedField;
    KeptWellFormed(head.headers, Dropped(head.headers));
    FixedValues();
  }

  /** A client with room for it reads from the rewritten head, whatever follows, the same status
  line, the rewritten fields, and the mode the framing field stands for. */
  lemma ClientHeadParses(setup: Setup, client: Setup, head: Head, framing: seq<HeaderField>, seen: Framing, close: bool, rest: string)
    requires WellFormedHead(setup, head) && ValidSetup(client)
    requires FramesAs(framing, seen) && Suits(client, head, seen)
    requires |ClientHead(head, framing, close)| <= client.maxHeader
    ensures var text := ClientHead(head, framing, close);
            HasHead(client, text + rest, Head(head.line, ClientFields(head, framing, close), |text|, ModeOf(client, head, seen)))
  {
    hide Find, ParseStatusLine, ParseBlock, SelectBodyMode, ClientFields, HeadText, AllFieldValue, Suits, ModeOf, NoteHeaders;
    var fields := ClientFields(head, framing, close);
    StatusLineParses(head.line);
    ClientFieldsWellFormed(head, framing, close);
    PrintedHead(StartLine(head.line), fields, rest);
    StartsWith(StartLine(head.line), fields, rest);
    ClientMode(client, head, framing, seen, close, |ClientHead(head, framing, close)|);
  }

  // ---------------------------------------------------------------- relayed bodies

  /** The mode the accepted head has is the one its relay framing stands for. */
  lemma RelayFramesAs(setup: Setup, client: Setup, head: Head) returns (seen: Framing)
    requires WellFormedHead(setup, head) && client.verb == setup.verb && setup.maxBody <= client.maxBody
    requires ValidSetup(setup)
    ensures FramesAs(RelayFraming(head), seen) && Suits(client, head, seen) && ModeOf(client, head, seen) == head.mode
  {
    hide NoteHeaders, Bodiless, FramesAs, SizeOf, AnnouncedLength;
    match head.mode {
      case NoBody =>
        AnnouncedFramesAs(setup, head);
        var length :| FramesAs(AnnouncedLength(head.headers), Framing(length, false));
        seen := Framing(length, false);
      case ContentLength(n) =>
        DecimalRoundTrip(n);
        DecimalIsFieldValue(n);
        LengthFramesAs(Decimal(n), n);
        seen := Framing(Some(n), false);
      case Chunked =>
        ChunkedFramesAs();
        seen := Framing(None, true);
      case CloseDelimited =>
        NothingFramesAs();
        seen := Framing(None, false);
    }
  }

  /** The head sent for a relayed body selects the same body mode and content length, with the
  same status line, whatever octets follow it. */
  lemma RelayedHeadRoundTrip(setup: Setup, buffer: string, client: Setup, close: bool, rest: string)
    requires ValidSetup(setup) && ValidSetup(client) && client.verb == setup.verb && setup.maxBody <= client.maxBody
    requires var p := Parse(setup, buffer); p.AwaitingBody? || p.Complete?
    ensures var head := Parse(setup, buffer).head;
            var text := ClientHead(head, RelayFraming(head), close);
            |text| <= client.maxHeader ==>
              HasHead(client, text + rest, Head(head.line, ClientFields(head, RelayFraming(head), close), |text|, head.mode))
  {
    hide Parse, WellFormedHead, HasHead, ClientHead, ClientFields, RelayFraming, FramesAs, Suits, ModeOf;
    var head := Parse(setup, buffer).head;
    AcceptedHead(setup, buffer);
    var seen := RelayFramesAs(setup, client, head);
    if |ClientHead(head, RelayFraming(head), close)| <= client.maxHeader {
      ClientHeadParses(setup, client, head, RelayFraming(head), seen, close, rest);
    }
  }

  // ---------------------------------------------------------------- the body behind another head

  /** The scanner's view does not depend on where in the buffer the body starts. */
  function Shifted(scan: Scan, from: nat, to: nat): Scan
    requires from <= scan.position && (scan.stage == AtTrailers ==> from <= scan.trailersStart)
  {
    scan.(position := scan.position - from + to,
          trailersStart := if scan.stage == AtTrailers then scan.trailersStart - from + to else scan.trailersStart)
  }

  lemma FindShift(a: string, from: nat, b: string, to: nat, pattern: string, k: nat)
    requires from <= |a| && to <= |b| && a[from..] == b[to..] && k <= |a| - from
    ensures var r := Find(a, pattern, from + k);
            Find(b, pattern, to + k) == if r.Some? then Some(r.value - from + to) else None
  {
    hide Find;
    FindTail(a, from, pattern, k);
    FindTail(b, to, pattern, k);
  }

  lemma SliceShift(a: string, from: nat, b: string, to: nat, i: nat, j: nat)
    requires from <= |a| && to <= |b| && a[from..] == b[to..] && i <= j && from + j <= |a|
    ensures |b| == |a| - from + to && b[to + i..to + j] == a[from + i..from + j]
  {
    assert a[from..][i..j] == a[from + i..from + j];
    assert b[to..][i..j] == b[to + i..to + j];
  }

  /** Both scans look at the same octets, and the second has at least the first one's limits. */
  ghost predicate SameBody(setup: Setup, client: Setup, a: string, from: nat, b: string, to: nat) {
    && from <= |a| && to <= |b| && a[from..] == b[to..] && |b| <= SIZE_MAX
    && setup.maxHeader <= client.maxHeader && setup.maxBody <= client.maxBody
  }

  ghost predicate Scannable(a: string, from: nat, scan: Scan) {
    from <= scan.position <= |a| && (scan.stage == AtTrailers ==> from <= scan.trailersStart <= scan.position)
  }

  /** A move over one buffer that goes on or finishes is the shifted move over the other. */
  ghost predicate MovesAlike(setup: Setup, client: Setup, a: string, from: nat, b: string, to: nat, scan: Scan)
    requires Scannable(a, from, scan) && |b| == |a| - from + to && to <= |b|
  {
    var m := MoveOn(setup, a, scan);
    m.Advance? || m.Finish? ==>
      && (m.Advance? ==> Scannable(a, from, m.next))
      && MoveOn(client, b, Shifted(scan, from, to)) ==
         if m.Advance? then Advance(Shifted(m.next, from, to)) else Finish(m.messageBytes - from + to)
  }

  lemma MoveShift(setup: Setup, client: Setup, a: string, from: nat, b: string, to: nat, scan: Scan)
    requires SameBody(setup, client, a, from, b, to) && Scannable(a, from, scan)
    ensures |b| == |a| - from + to && MovesAlike(setup, client, a, from, b, to, scan)
  {
    hide MovesAlike;
    SliceShift(a, from, b, to, scan.position - from, scan.position - from);
    match scan.stage {
      case AtData => DataShift(setup, client, a, from, b, to, scan);
      case AtSize => SizeShift(setup, client, a, from, b, to, scan);
      case AtTrailers => TrailerShift(setup, client, a, from, b, to, scan);
    }
  }

  lemma DataShift(setup: Setup, client: Setup, a: string, from: nat, b: string, to: nat, scan: Scan)
    requires SameBody(setup, client, a, from, b, to) && Scannable(a, from, scan)
    requires |b| == |a| - from + to && scan.stage == AtData
    ensures MovesAlike(setup, client, a, from, b, to, scan)
  {
    var k := scan.position - from;
    if scan.position + scan.size + 2 <= |a| {
      SliceShift(a, from, b, to, k, k + scan.size);
      SliceShift(a, from, b, to, k + scan.size, k + scan.size + 2);
    }
  }

  lemma SizeShift(setup: Setup, client: Setup, a: string, from: nat, b: string, to: nat, scan: Scan)
    requires SameBody(setup, client, a, from, b, to) && Scannable(a, from, scan)
    requires |b| == |a| - from + to && scan.stage == AtSize
    ensures MovesAlike(setup, client, a, from, b, to, scan)
  {
    hide Find, ExtensionAccepted, ChunkedDecoder.ChunkSize;
    var k := scan.position - from;
    FindShift(a, from, b, to, CRLF, k);
    var lineEnd := Find(a, CRLF, scan.position);
    if lineEnd.Some? {
      SliceShift(a, from, b, to, k, lineEnd.value - from);
    }
  }

  lemma TrailerShift(setup: Setup, client: Setup, a: string, from: nat, b: string, to: nat, scan: Scan)
    requires SameBody(setup, client, a, from, b, to) && Scannable(a, from, scan)
    requires |b| == |a| - from + to && scan.stage == AtTrailers
    ensures MovesAlike(setup, client, a, from, b, to, scan)
  {
    hide Find, ParseHeaderLine, ChunkedDecoder.ForbiddenTrailer;
    var k := scan.position - from;
    FindShift(a, from, b, to, CRLF, k);
    var lineEnd := Find(a, CRLF, scan.position);
    if lineEnd.Some? {
      SliceShift(a, from, b, to, k, lineEnd.value - from);
    }
  }

  /** A scan from `scan` finishes with this body and these trailers, at `end`. */
  ghost predicate RunsTo(setup: Setup, buffer: string, scan: Scan, body: string, trailers: seq<HeaderField>, end: nat) {
    && scan.position <= |buffer|
    && var r := Run(setup, buffer, scan); r.1 == Finish(end) && r.0.body == body && r.0.trailers == trailers
  }

  lemma RunsToStep(setup: Setup, buffer: string, scan: Scan, body: string, trailers: seq<HeaderField>, end: nat)
    requires scan.position <= |buffer|
    ensures var m := MoveOn(setup, buffer, scan);
            RunsTo(setup, buffer, scan, body, trailers, end) <==>
            if m.Advance? then RunsTo(setup, buffer, m.next, body, trailers, end)
            else m == Finish(end) && scan.body == body && scan.trailers == trailers
  {
    hide MoveOn;
  }

  lemma {:induction false} RunShift(setup: Setup, client: Setup, a: string, from: nat, b: string, to: nat, scan: Scan,
                                    body: string, trailers: seq<HeaderField>, end: nat)
    requires SameBody(setup, client, a, from, b, to) && from <= end
    requires from <= scan.position <= |a| && (scan.stage == AtTrailers ==> from <= scan.trailersStart <= scan.position)
    requires RunsTo(setup, a, scan, body, trailers, end)
    ensures RunsTo(client, b, Shifted(scan, from, to), body, trailers, end - from + to)
    decreases |a| - scan.position
  {
    hide MoveOn, RunsTo;
    RunsToStep(setup, a, scan, body, trailers, end);
    MoveShift(setup, client, a, from, b, to, scan);
    RunsToStep(client, b, Shifted(scan, from, to), body, trailers, end - from + to);
    var m := MoveOn(setup, a, scan);
    if m.Advance? {
      RunShift(setup, client, a, from, b, to, m.next, body, trailers, end);
    }
  }

  /** The octets of a response's body as they travel. */
  function RawBody(p: Progress, buffer: string): string
    requires p.Complete? && p.head.headerBytes <= p.messageBytes <= |buffer|
  {
    buffer[p.head.headerBytes..p.messageBytes]
  }

  lemma CompleteWithin(setup: Setup, buffer: string)
    ensures var p := Parse(setup, buffer);
            p.Complete? ==> p.head.headerBytes <= p.messageBytes <= |buffer| && HasHead(setup, buffer, p.head)
  {
    hide Find, ParseStatusLine, ParseHead, MoveOn;
    HeadOf(setup, buffer);
    var p := Parse(setup, buffer);
    if p.Complete? && p.head.mode == Chunked {
      ParseWithHead(setup, buffer, p.head);
      RunEndsLater(setup, buffer, StartScan(p.head.headerBytes));
    }
  }

  lemma {:induction false} RunEndsLater(setup: Setup, buffer: string, scan: Scan)
    requires scan.position <= |buffer|
    ensures var r := Run(setup, buffer, scan).1; r.Finish? ==> scan.position <= r.messageBytes <= |buffer|
    decreases |buffer| - scan.position
  {
    hide MoveOn;
    var m := MoveOn(setup, buffer, scan);
    if m.Advance? {
      RunEndsLater(setup, buffer, m.next);
    }
  }

  /** A complete response, relayed as rewritten head plus its own body octets, is read by the
  client as the same status line, body and trailers, and ends where the octets end. */
  lemma RelayedResponseRoundTrip(setup: Setup, buffer: string, client: Setup, close: bool)
    requires ValidSetup(setup) && ValidSetup(client) && client.verb == setup.verb
    requires setup.maxBody <= client.maxBody && setup.maxHeader <= client.maxHeader
    requires Parse(setup, buffer).Complete?
    ensures var p := Parse(setup, buffer);
            var text := ClientHead(p.head, RelayFraming(p.head), close);
            var fields := ClientFields(p.head, RelayFraming(p.head), close);
            && p.head.headerBytes <= p.messageBytes <= |buffer|
            && (|text| <= client.maxHeader && |text| + |RawBody(p, buffer)| <= SIZE_MAX ==>
                  Parse(client, text + RawBody(p, buffer)) ==
                  Complete(Head(p.head.line, fields, |text|, p.head.mode), p.body, p.trailers, |text| + |RawBody(p, buffer)|))
  {
    hide Parse, HasHead, ClientHead, ClientFields, RelayFraming, Run;
    var p := Parse(setup, buffer);
    CompleteWithin(setup, buffer);
    var text := ClientHead(p.head, RelayFraming(p.head), close);
    var raw := RawBody(p, buffer);
    if |text| <= client.maxHeader && |text| + |raw| <= SIZE_MAX {
      var sent := text + raw;
      var head := Head(p.head.line, ClientFields(p.head, RelayFraming(p.head), close), |text|, p.head.mode);
      RelayedHeadRoundTrip(setup, buffer, client, close, raw);
      ParseWithHead(setup, buffer, p.head);
      ParseWithHead(client, sent, head);
      assert sent[|text|..] == raw && sent[|text|..|sent|] == raw;
      if p.head.mode == Chunked {
        RelayedChunks(setup, client, buffer, p, sent, |text|);
      }
    }
  }

  lemma RelayedChunks(setup: Setup, client: Setup, buffer: string, p: Progress, sent: string, to: nat)
    requires p.Complete? && p.head.headerBytes <= p.messageBytes <= |buffer| && p.head.mode == Chunked
    requires RunsTo(setup, buffer, StartScan(p.head.headerBytes), p.body, p.trailers, p.messageBytes)
    requires to <= |sent| <= SIZE_MAX && sent[to..] == RawBody(p, buffer)
    requires setup.maxBody <= client.maxBody && setup.maxHeader <= client.maxHeader
    ensures RunsTo(client, sent, StartScan(to), p.body, p.trailers, |sent|)
  {
    hide RunsTo;
    var from := p.head.headerBytes;
    var cut := buffer[..p.messageBytes];
    assert buffer == cut + buffer[p.messageBytes..];
    RunsToCut(setup, cut, buffer[p.messageBytes..], StartScan(from), p.body, p.trailers);
    assert cut[from..] == sent[to..];
    RunShift(setup, client, cut, from, sent, to, StartScan(from), p.body, p.trailers, p.messageBytes);
  }

  lemma RunsToCut(setup: Setup, cut: string, more: string, scan: Scan, body: string, trailers: seq<HeaderField>)
    requires RunsTo(setup, cut + more, scan, body, trailers, |cut|)
    ensures RunsTo(setup, cut, scan, body, trailers, |cut|)
  {
    hide Run;
    Pieces.RunPrefix(setup, cut, more, scan);
  }

  // ---------------------------------------------------------------- decoded bodies

  lemma WholeFramesAs(setup: Setup, client: Setup, head: Head, body: string) returns (seen: Framing)
    requires WellFormedHead(setup, head) && client.verb == setup.verb && |body| <= client.maxBody
    requires ValidSetup(client)
    ensures FramesAs(WholeFraming(head, body), seen) && Suits(client, head, seen)
    ensures ModeOf(client, head, seen) == if head.mode == NoBody then NoBody else ContentLength(|body|)
  {
    hide NoteHeaders, Bodiless, FramesAs, SizeOf, AnnouncedLength;
    if head.mode == NoBody {
      AnnouncedFramesAs(setup, head);
      var length :| FramesAs(AnnouncedLength(head.headers), Framing(length, false));
      seen := Framing(length, false);
    } else {
      DecimalRoundTrip(|body|);
      DecimalIsFieldValue(|body|);
      LengthFramesAs(Decimal(|body|), |body|);
      seen := Framing(Some(|body|), false);
    }
  }

  /** A complete response, decoded and sent whole, is read by the client with the same status
  line and the same decoded body, now framed by its length. */
  lemma WholeResponseRoundTrip(setup: Setup, buffer: string, client: Setup, close: bool)
    requires ValidSetup(setup) && ValidSetup(client) && client.verb == setup.verb
    requires Parse(setup, buffer).Complete? && |Parse(setup, buffer).body| <= client.maxBody
    ensures var p := Parse(setup, buffer);
            var framing := WholeFraming(p.head, p.body);
            var text := ClientHead(p.head, framing, close);
            var mode := if p.head.mode == NoBody then NoBody else ContentLength(|p.body|);
            |text| <= client.maxHeader ==>
              Parse(client, text + p.body) ==
              Complete(Head(p.head.line, ClientFields(p.head, framing, close), |text|, mode), p.body, [], |text| + |p.body|)
  {
    hide Parse, HasHead, ClientHead, ClientFields, WholeFraming, Run, WellFormedHead, FramesAs, Suits, ModeOf;
    var p := Parse(setup, buffer);
    AcceptedHead(setup, buffer);
    ParseWithHead(setup, buffer, p.head);
    var framing := WholeFraming(p.head, p.body);
    var text := ClientHead(p.head, framing, close);
    var seen := WholeFramesAs(setup, client, p.head, p.body);
    if |text| <= client.maxHeader {
      ClientHeadParses(setup, client, p.head, framing, seen, close, p.body);
      var head := Head(p.head.line, ClientFields(p.head, framing, close), |text|, ModeOf(client, p.head, seen));
      ParseWithHead(client, text + p.body, head);
      assert (text + p.body)[|text|..|text| + |p.body|] == p.body;
    }
  }
}
