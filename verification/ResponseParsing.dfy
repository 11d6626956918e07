/** One-call parsing of an HTTP/1.x response: what the octets received so far mean. */
module ResponseParsing {
  import opened Text
  import opened HeaderFields
  import ChunkedDecoder

  datatype ResponseError =
    | HeaderTooLarge
    | BodyTooLarge
    | InvalidStatusLine
    | UnsupportedHttpVersion
    | InvalidStatusCode
    | BadHeader(field: FieldError)
    | InvalidContentLength
    | ConflictingContentLength
    | ConflictingMessageFraming
    | UnsupportedTransferEncoding
    | InvalidChunkSize
    | InvalidChunkTerminator
    | InvalidTrailer
    | UnexpectedEof

  datatype Setup = Setup(verb: string, maxHeader: nat, maxBody: nat)

  predicate ValidSetup(setup: Setup) { setup.maxHeader + setup.maxBody <= SIZE_MAX }

  datatype StatusLine = StatusLine(version: string, code: nat, reason: string)

  datatype BodyMode = NoBody | ContentLength(length: nat) | Chunked | CloseDelimited

  datatype Head = Head(line: StatusLine, headers: seq<HeaderField>, headerBytes: nat, mode: BodyMode)

  // ---------------------------------------------------------------- start line and framing

  function ParseStatusLine(line: string): (r: Result<StatusLine, ResponseError>)
    ensures r.Ok? ==>
              && r.value.version in {"HTTP/1.0", "HTTP/1.1"}
              && 100 <= r.value.code <= 599
              && AllFieldValue(r.value.reason)
  {
    var space := Find(line, " ", 0);
    if space.None? || space.value == 0 then Err(InvalidStatusLine)
    else
      var s := space.value;
      var version := line[..s];
      if version != "HTTP/1.0" && version != "HTTP/1.1" then Err(UnsupportedHttpVersion)
      else if |line| < s + 4 then Err(InvalidStatusCode)
      else if !IsDigit(line[s + 1]) || !IsDigit(line[s + 2]) || !IsDigit(line[s + 3]) then Err(InvalidStatusCode)
      else
        var code := (line[s + 1] as int - '0' as int) * 100 + (line[s + 2] as int - '0' as int) * 10
                    + (line[s + 3] as int - '0' as int);
        if code < 100 || code > 599 then Err(InvalidStatusCode)
        else if |line| == s + 4 then Ok(StatusLine(version, code, ""))
        else if line[s + 4] != ' ' || !AllFieldValue(line[s + 5..]) then Err(InvalidStatusLine)
        else Ok(StatusLine(version, code, line[s + 5..]))
  }

  /** What the framing loop has gathered. */
  datatype Framing = Framing(length: Option<nat>, chunked: bool)

  function NoteHeader(seen: Framing, h: HeaderField): Result<Framing, ResponseError> {
    if Named(h, "Content-Length") && SizeOf(10, h.value).None? then Err(InvalidContentLength)
    else if Named(h, "Content-Length") && seen.length.Some? && seen.length != SizeOf(10, h.value)
    then Err(ConflictingContentLength)
    else if Named(h, "Transfer-Encoding") && !EqualsIgnoreCase(h.value, "chunked") then Err(UnsupportedTransferEncoding)
    else Ok(Framing(
              if Named(h, "Content-Length") then SizeOf(10, h.value) else seen.length,
              seen.chunked || Named(h, "Transfer-Encoding")))
  }

  function NoteHeaders(seen: Framing, hs: seq<HeaderField>): Result<Framing, ResponseError>
    decreases |hs|
  {
    if hs == [] then Ok(seen)
    else match NoteHeader(seen, hs[0])
      case Err(e) => Err(e)
      case Ok(next) => NoteHeaders(next, hs[1..])
  }

  /** RFC 9112, section 6.3: responses that never have a body. */
  predicate Bodiless(verb: string, code: nat) {
    EqualsIgnoreCase(verb, "HEAD") || 100 <= code < 200 || code == 204 || code == 304
  }

  function SelectBodyMode(setup: Setup, code: nat, hs: seq<HeaderField>, headerBytes: nat): Result<BodyMode, ResponseError> {
    match NoteHeaders(Framing(None, false), hs)
    case Err(e) => Err(e)
    case Ok(seen) =>
      if seen.chunked && seen.length.Some? then Err(ConflictingMessageFraming)
      else if Bodiless(setup.verb, code) then Ok(NoBody)
      else if seen.chunked then Ok(Chunked)
      else if seen.length.Some? then
        if seen.length.value > setup.maxBody then Err(BodyTooLarge)
        else if seen.length.value + headerBytes > SIZE_MAX then Err(InvalidContentLength)
        else Ok(ContentLength(seen.length.value))
      else Ok(CloseDelimited)
  }

  function ParseHead(setup: Setup, line: StatusLine, buffer: string, start: nat, headerEnd: nat): Result<Head, ResponseError>
    requires headerEnd <= |buffer|
  {
    match ParseBlock(buffer, start, headerEnd)
    case Err(e) => Err(BadHeader(e))
    case Ok(headers) =>
      match SelectBodyMode(setup, line.code, headers, headerEnd + 4)
      case Err(e) => Err(e)
      case Ok(mode) => Ok(Head(line, headers, headerEnd + 4, mode))
  }

  // ---------------------------------------------------------------- the buffered chunk scanner

  datatype Stage = AtSize | AtData | AtTrailers

  datatype Scan = Scan(stage: Stage, position: nat, trailersStart: nat, size: nat, body: string, trailers: seq<HeaderField>)

  /** One move of the scanner over the whole buffer. */
  datatype Move = Advance(next: Scan) | Wait | Finish(messageBytes: nat) | Reject(error: ResponseError)

  function StartScan(headerBytes: nat): Scan { Scan(AtSize, headerBytes, 0, 0, "", []) }

  predicate ExtensionAccepted(line: string) {
    var semicolon := Find(line, ";", 0);
    semicolon.Some? ==> AllFieldValue(line[semicolon.value + 1..])
  }

  function MoveSize(setup: Setup, buffer: string, scan: Scan): Move
    requires scan.position <= |buffer|
  {
    var lineEnd := Find(buffer, CRLF, scan.position);
    if lineEnd.None? then
      if |buffer| - scan.position >= setup.maxHeader then Reject(InvalidChunkSize) else Wait
    else
      var line := buffer[scan.position..lineEnd.value];
      var next := scan.(position := lineEnd.value + 2);
      if !ExtensionAccepted(line) || ChunkedDecoder.ChunkSize(line).None? then Reject(InvalidChunkSize)
      else if ChunkedDecoder.ChunkSize(line) == Some(0) then
        Advance(next.(stage := AtTrailers, trailersStart := lineEnd.value + 2, size := 0))
      else if |scan.body| + ChunkedDecoder.ChunkSize(line).value > setup.maxBody then Reject(BodyTooLarge)
      else Advance(next.(stage := AtData, size := ChunkedDecoder.ChunkSize(line).value))
  }

  function MoveData(buffer: string, scan: Scan): Move
    requires scan.position <= |buffer|
  {
    var dataEnd := scan.position + scan.size;
    if dataEnd + 2 > SIZE_MAX then Reject(InvalidChunkSize)
    else if |buffer| < dataEnd + 2 then Wait
    else if buffer[dataEnd..dataEnd + 2] != CRLF then Reject(InvalidChunkTerminator)
    else Advance(scan.(stage := AtSize, position := dataEnd + 2, body := scan.body + buffer[scan.position..dataEnd]))
  }

  function MoveTrailers(setup: Setup, buffer: string, scan: Scan): Move
    requires scan.position <= |buffer|
  {
    var lineEnd := Find(buffer, CRLF, scan.position);
    if lineEnd.None? then
      if |buffer| - scan.trailersStart >= setup.maxHeader then Reject(HeaderTooLarge) else Wait
    else if lineEnd.value + 2 - scan.trailersStart > setup.maxHeader then Reject(HeaderTooLarge)
    else if lineEnd.value == scan.position then Finish(lineEnd.value + 2)
    else match ParseHeaderLine(buffer[scan.position..lineEnd.value])
      case Err(_) => Reject(InvalidTrailer)
      case Ok(h) =>
        if ChunkedDecoder.ForbiddenTrailer(h.name) then Reject(InvalidTrailer)
        else Advance(scan.(position := lineEnd.value + 2, trailers := scan.trailers + [h]))
  }

  function MoveOn(setup: Setup, buffer: string, scan: Scan): (m: Move)
    requires scan.position <= |buffer|
    ensures m.Advance? ==> scan.position + 2 <= m.next.position <= |buffer|
    ensures m.Finish? ==> scan.position + 2 == m.messageBytes <= |buffer|
  {
    match scan.stage
    case AtSize => MoveSize(setup, buffer, scan)
    case AtData => MoveData(buffer, scan)
    case AtTrailers => MoveTrailers(setup, buffer, scan)
  }

  /** Moves until the scanner waits, finishes or rejects: where it stopped, and why. */
  function Run(setup: Setup, buffer: string, scan: Scan): (r: (Scan, Move))
    requires scan.position <= |buffer|
    ensures !r.1.Advance? && r.0.position <= |buffer| && MoveOn(setup, buffer, r.0) == r.1
    decreases |buffer| - scan.position
  {
    var m := MoveOn(setup, buffer, scan);
    if m.Advance? then Run(setup, buffer, m.next) else (scan, m)
  }

  lemma RunStep(setup: Setup, buffer: string, scan: Scan)
    requires scan.position <= |buffer|
    ensures var m := MoveOn(setup, buffer, scan);
            Run(setup, buffer, scan) == if m.Advance? then Run(setup, buffer, m.next) else (scan, m)
  {
    hide MoveOn;
  }

  // ---------------------------------------------------------------- the whole message

  datatype Progress =
    | AwaitingHead
    | AwaitingBody(head: Head, scan: Scan)
    | Complete(head: Head, body: string, trailers: seq<HeaderField>, messageBytes: nat)
    | Failed(error: ResponseError)

  predicate Unfinished(p: Progress) { p.AwaitingHead? || p.AwaitingBody? }

  function NoHeadYet(setup: Setup, buffer: string): Progress {
    if |buffer| >= setup.maxHeader then Failed(HeaderTooLarge) else AwaitingHead
  }

  function WithBody(setup: Setup, head: Head, buffer: string): Progress
    requires head.headerBytes <= |buffer|
  {
    var start := StartScan(head.headerBytes);
    match head.mode
    case NoBody => Complete(head, "", [], head.headerBytes)
    case ContentLength(n) =>
      if |buffer| >= head.headerBytes + n
      then Complete(head, buffer[head.headerBytes..head.headerBytes + n], [], head.headerBytes + n)
      else AwaitingBody(head, start)
    case Chunked => AfterRun(head, Run(setup, buffer, start))
    case CloseDelimited =>
      if |buffer| - head.headerBytes > setup.maxBody then Failed(BodyTooLarge) else AwaitingBody(head, start)
  }

  function AfterRun(head: Head, run: (Scan, Move)): Progress
    requires !run.1.Advance?
  {
    match run.1
    case Wait => AwaitingBody(head, run.0)
    case Finish(n) => Complete(head, run.0.body, run.0.trailers, n)
    case Reject(e) => Failed(e)
  }

  function AfterLine(setup: Setup, line: StatusLine, lineEnd: nat, buffer: string): Progress {
    var headerEnd := Find(buffer, CRLF_CRLF, 0);
    if headerEnd.None? then NoHeadYet(setup, buffer)
    else if headerEnd.value + 4 > setup.maxHeader then Failed(HeaderTooLarge)
    else match ParseHead(setup, line, buffer, lineEnd + 2, headerEnd.value)
      case Err(e) => Failed(e)
      case Ok(head) => WithBody(setup, head, buffer)
  }

  /** One-call parsing of all the octets received. */
  function Parse(setup: Setup, buffer: string): Progress {
    var lineEnd := Find(buffer, CRLF, 0);
    if lineEnd.None? then NoHeadYet(setup, buffer)
    else match ParseStatusLine(buffer[..lineEnd.value])
      case Err(e) => Failed(e)
      case Ok(line) => AfterLine(setup, line, lineEnd.value, buffer)
  }

  datatype State = State(buffer: string, progress: Progress)

  const INITIAL: State := State("", AwaitingHead)

  function Consumed(setup: Setup, st: State, chunk: string): State {
    if !Unfinished(st.progress) then st
    else if |st.buffer| + |chunk| > setup.maxHeader + setup.maxBody && chunk != ""
    then st.(progress := Failed(BodyTooLarge))
    else State(st.buffer + chunk, Parse(setup, st.buffer + chunk))
  }

  /** The upstream has closed: only a close-delimited body may end that way. */
  function Ended(setup: Setup, st: State): State {
    match st.progress
    case AwaitingHead => st.(progress := Failed(UnexpectedEof))
    case AwaitingBody(head, _) =>
      if head.mode != CloseDelimited || |st.buffer| < head.headerBytes then st.(progress := Failed(UnexpectedEof))
      else if |st.buffer| - head.headerBytes > setup.maxBody then st.(progress := Failed(BodyTooLarge))
      else st.(progress := Complete(head, st.buffer[head.headerBytes..], [], |st.buffer|))
    case _ => st
  }

  // ---------------------------------------------------------------- stability of the head

  /** Where the head is complete: start line, blank line and the parsed head. */
  ghost predicate HasHead(setup: Setup, buffer: string, head: Head) {
    var lineEnd := Find(buffer, CRLF, 0);
    var headerEnd := Find(buffer, CRLF_CRLF, 0);
    && lineEnd.Some? && headerEnd.Some?
    && head.headerBytes == headerEnd.value + 4 <= setup.maxHeader
    && ParseStatusLine(buffer[..lineEnd.value]) == Ok(head.line)
    && ParseHead(setup, head.line, buffer, lineEnd.value + 2, headerEnd.value) == Ok(head)
  }

  lemma ParseWithHead(setup: Setup, buffer: string, head: Head)
    requires HasHead(setup, buffer, head)
    ensures head.headerBytes <= |buffer| && Parse(setup, buffer) == WithBody(setup, head, buffer)
  {
    hide Find, ParseStatusLine, ParseBlock, SelectBodyMode, WithBody;
  }

  /** A response that is not refused, and is past its head, has one. */
  lemma HeadOf(setup: Setup, buffer: string)
    ensures var p := Parse(setup, buffer);
            (p.AwaitingBody? || p.Complete? ==> HasHead(setup, buffer, p.head))
  {
    hide Find, ParseStatusLine, ParseBlock, SelectBodyMode, Run;
  }

  lemma HeadAppend(setup: Setup, buffer: string, more: string, head: Head)
    requires HasHead(setup, buffer, head)
    ensures HasHead(setup, buffer + more, head)
  {
    hide Find, ParseStatusLine, ParseBlock, SelectBodyMode;
    var lineEnd, headerEnd := Find(buffer, CRLF, 0).value, Find(buffer, CRLF_CRLF, 0).value;
    FindAppend(buffer, more, CRLF, 0);
    FindAppend(buffer, more, CRLF_CRLF, 0);
    assert (buffer + more)[..lineEnd] == buffer[..lineEnd];
    BlankLineAfterStartLine(buffer, lineEnd, headerEnd);
    ParseBlockAppend(buffer, more, lineEnd + 2, headerEnd);
  }

  /** A prefix that still contains the blank line has the same head. */
  lemma HeadPrefix(setup: Setup, buffer: string, more: string, head: Head)
    requires HasHead(setup, buffer + more, head) && head.headerBytes <= |buffer|
    ensures HasHead(setup, buffer, head)
  {
    hide Find, ParseStatusLine, ParseBlock, SelectBodyMode;
    var whole := buffer + more;
    var lineEnd, headerEnd := Find(whole, CRLF, 0).value, Find(whole, CRLF_CRLF, 0).value;
    BlankLineAfterStartLine(whole, lineEnd, headerEnd);
    FindPrefix(buffer, more, CRLF, 0);
    FindPrefix(buffer, more, CRLF_CRLF, 0);
    assert whole[..lineEnd] == buffer[..lineEnd];
    BlankLineAfterStartLine(buffer, lineEnd, headerEnd);
    ParseBlockAppend(buffer, more, lineEnd + 2, headerEnd);
  }

  /** A prefix too short for the blank line of an acceptable response keeps waiting. */
  lemma HeadNotYet(setup: Setup, buffer: string, more: string, head: Head)
    requires HasHead(setup, buffer + more, head) && |buffer| < head.headerBytes
    ensures Parse(setup, buffer) == AwaitingHead
  {
    hide Find, ParseStatusLine, ParseBlock, SelectBodyMode;
    var whole := buffer + more;
    if Find(buffer, CRLF_CRLF, 0).Some? {
      FindAppend(buffer, more, CRLF_CRLF, 0);
    }
    if Find(buffer, CRLF, 0).Some? {
      FindAppend(buffer, more, CRLF, 0);
      assert whole[..Find(buffer, CRLF, 0).value] == buffer[..Find(buffer, CRLF, 0).value];
    }
  }
}
