/** The incremental HTTP/1.1 request parser. */
module RequestParsing {
  import opened Text
  import opened HeaderFields

  datatype ParseStatus = NeedMoreData | MessageComplete | Error

  datatype ParseError =
    | HeaderTooLarge
    | BodyTooLarge
    | InvalidRequestLine
    | UnsupportedHttpVersion
    | BadHeader(field: FieldError)
    | MissingHost
    | DuplicateHost
    | InvalidContentLength
    | ConflictingContentLength
    | UnsupportedTransferEncoding
    | UnsupportedExpectation
    | PipeliningNotSupported

  datatype Limits = Limits(maxHeader: nat, maxBody: nat)

  predicate ValidLimits(limits: Limits) { limits.maxHeader + limits.maxBody <= SIZE_MAX }

  datatype RequestLine = RequestLine(verb: string, target: string, version: string)

  /** A parsed head: everything the accessors report once the headers are complete. */
  datatype Head = Head(line: RequestLine, headers: seq<HeaderField>, headerBytes: nat, contentLength: nat)

  datatype Progress = AwaitingHead | AwaitingBody(head: Head) | Complete(head: Head) | Failed(error: ParseError)

  predicate Unfinished(p: Progress) { p.AwaitingHead? || p.AwaitingBody? }

  // ---------------------------------------------------------------- specification

  predicate WellFormedLine(line: RequestLine) {
    && line.verb != "" && AllToken(line.verb)
    && line.target != "" && AllTarget(line.target)
    && line.version == "HTTP/1.1"
  }

  function ParseRequestLine(line: string): (r: Result<RequestLine, ParseError>)
    ensures r.Ok? ==> WellFormedLine(r.value)
  {
    var first := Find(line, " ", 0);
    if first.None? || first.value == 0 then Err(InvalidRequestLine)
    else
      var second := Find(line, " ", first.value + 1);
      if second.None? || second.value == first.value + 1 || Find(line, " ", second.value + 1).Some?
      then Err(InvalidRequestLine)
      else
        var verb := line[..first.value];
        var target := line[first.value + 1..second.value];
        var version := line[second.value + 1..];
        if version == "" || !AllToken(verb) || !AllTarget(target) then Err(InvalidRequestLine)
        else if version != "HTTP/1.1" then Err(UnsupportedHttpVersion)
        else Ok(RequestLine(verb, target, version))
  }

  /** What the header loop has gathered: how many Host fields, and the agreed body length. */
  datatype Framing = Framing(hosts: nat, length: Option<nat>)

  function NoteHeader(seen: Framing, h: HeaderField): Result<Framing, ParseError> {
    var hosts := if Named(h, "Host") then seen.hosts + 1 else seen.hosts;
    if Named(h, "Host") && h.value == "" then Err(MissingHost)
    else if Named(h, "Transfer-Encoding") then Err(UnsupportedTransferEncoding)
    else if Named(h, "Expect") then Err(UnsupportedExpectation)
    else if Named(h, "Content-Length") then
      var length := SizeOf(10, h.value);
      if length.None? then Err(InvalidContentLength)
      else if seen.length.Some? && seen.length != length then Err(ConflictingContentLength)
      else Ok(Framing(hosts, length))
    else Ok(Framing(hosts, seen.length))
  }

  function NoteHeaders(seen: Framing, hs: seq<HeaderField>): Result<Framing, ParseError>
    decreases |hs|
  {
    if hs == [] then Ok(seen)
    else match NoteHeader(seen, hs[0])
      case Err(e) => Err(e)
      case Ok(next) => NoteHeaders(next, hs[1..])
  }

  function Validate(limits: Limits, hs: seq<HeaderField>, headerBytes: nat): Result<nat, ParseError> {
    match NoteHeaders(Framing(0, None), hs)
    case Err(e) => Err(e)
    case Ok(seen) =>
      if seen.hosts == 0 then Err(MissingHost)
      else if seen.hosts > 1 then Err(DuplicateHost)
      else
        var length := if seen.length.Some? then seen.length.value else 0;
        if length > limits.maxBody then Err(BodyTooLarge)
        else if length + headerBytes > SIZE_MAX then Err(InvalidContentLength)
        else Ok(length)
  }

  function ParseHead(limits: Limits, line: RequestLine, buffer: string, start: nat, headerEnd: nat)
    : Result<Head, ParseError>
    requires headerEnd <= |buffer|
  {
    match ParseBlock(buffer, start, headerEnd)
    case Err(e) => Err(BadHeader(e))
    case Ok(headers) =>
      match Validate(limits, headers, headerEnd + 4)
      case Err(e) => Err(e)
      case Ok(length) => Ok(Head(line, headers, headerEnd + 4, length))
  }

  function NoHeadYet(limits: Limits, buffer: string): Progress {
    if |buffer| >= limits.maxHeader then Failed(HeaderTooLarge) else AwaitingHead
  }

  function WithBody(head: Head, size: nat): Progress {
    if size < head.headerBytes + head.contentLength then AwaitingBody(head)
    else if size > head.headerBytes + head.contentLength then Failed(PipeliningNotSupported)
    else Complete(head)
  }

  function AfterLine(limits: Limits, line: RequestLine, lineEnd: nat, buffer: string): Progress {
    var headerEnd := Find(buffer, CRLF_CRLF, 0);
    if headerEnd.None? then NoHeadYet(limits, buffer)
    else if headerEnd.value + 4 > limits.maxHeader then Failed(HeaderTooLarge)
    else match ParseHead(limits, line, buffer, lineEnd + 2, headerEnd.value)
      case Err(e) => Failed(e)
      case Ok(head) => WithBody(head, |buffer|)
  }

  /** One-call parsing of all the octets received: no memory of earlier calls. */
  function Parse(limits: Limits, buffer: string): Progress {
    var lineEnd := Find(buffer, CRLF, 0);
    if lineEnd.None? then NoHeadYet(limits, buffer)
    else match ParseRequestLine(buffer[..lineEnd.value])
      case Err(e) => Failed(e)
      case Ok(line) => AfterLine(limits, line, lineEnd.value, buffer)
  }

  datatype State = State(buffer: string, progress: Progress)

  const INITIAL: State := State("", AwaitingHead)

  /** One call. A parser that has finished or failed no longer moves. */
  function Consumed(limits: Limits, st: State, chunk: string): State {
    if !Unfinished(st.progress) then st
    else if |st.buffer| + |chunk| > limits.maxHeader + limits.maxBody && chunk != ""
    then st.(progress := Failed(BodyTooLarge))
    else State(st.buffer + chunk, Parse(limits, st.buffer + chunk))
  }

  // ---------------------------------------------------------------- what validation means

  predicate IsLength(hs: seq<HeaderField>, n: nat) {
    && (forall i | 0 <= i < |hs| && Named(hs[i], "Content-Length") :: SizeOf(10, hs[i].value) == Some(n))
    && (n != 0 ==> exists i | 0 <= i < |hs| :: Named(hs[i], "Content-Length"))
  }

  function Hosts(hs: seq<HeaderField>): nat {
    if hs == [] then 0 else (if Named(hs[0], "Host") then 1 else 0) + Hosts(hs[1..])
  }

  /** The fields a request may carry: no transfer coding, no expectation, hosts not empty. */
  predicate Allowed(hs: seq<HeaderField>) {
    forall i | 0 <= i < |hs| ::
      && !Named(hs[i], "Transfer-Encoding") && !Named(hs[i], "Expect")
      && (Named(hs[i], "Host") ==> hs[i].value != "")
  }

  lemma {:induction false} NoteHeadersMeaning(seen: Framing, hs: seq<HeaderField>)
    ensures var r := NoteHeaders(seen, hs);
            && (r.Ok? ==> Allowed(hs) && r.value.hosts == seen.hosts + Hosts(hs))
            && (r.Ok? && seen.length.Some? ==> r.value.length == seen.length)
            && (r.Ok? && r.value.length.Some? ==>
                  forall i | 0 <= i < |hs| && Named(hs[i], "Content-Length") :: SizeOf(10, hs[i].value) == r.value.length)
            && (r.Ok? && seen.length.None? ==>
                  (r.value.length.Some? <==> exists i | 0 <= i < |hs| :: Named(hs[i], "Content-Length")))
    decreases |hs|
  {
    if hs != [] && NoteHeader(seen, hs[0]).Ok? {
      NoteHeadersMeaning(NoteHeader(seen, hs[0]).value, hs[1..]);
      assert forall i | 1 <= i < |hs| :: hs[i] == hs[1..][i - 1];
      assert hs[0] == hs[..1][0];
    }
  }

  lemma {:induction false} NoteHeadersAccepts(seen: Framing, hs: seq<HeaderField>, n: nat)
    requires Allowed(hs) && (seen.length.Some? ==> seen.length == Some(n))
    requires forall i | 0 <= i < |hs| && Named(hs[i], "Content-Length") :: SizeOf(10, hs[i].value) == Some(n)
    ensures NoteHeaders(seen, hs).Ok?
    decreases |hs|
  {
    if hs != [] {
      assert forall i | 1 <= i < |hs| :: hs[i] == hs[1..][i - 1];
      NoteHeadersAccepts(NoteHeader(seen, hs[0]).value, hs[1..], n);
    }
  }

  /** Validation accepts a header list, with body length `n`, exactly when it has one non-empty
  Host, no transfer coding, no expectation, and every Content-Length says `n` (none says 0). */
  lemma ValidationExactness(limits: Limits, hs: seq<HeaderField>, headerBytes: nat, n: nat)
    requires headerBytes + limits.maxBody <= SIZE_MAX
    ensures Validate(limits, hs, headerBytes) == Ok(n)
            <==> (Hosts(hs) == 1 && Allowed(hs) && IsLength(hs, n) && n <= limits.maxBody)
  {
    hide NoteHeaders;
    var seen := Framing(0, None);
    NoteHeadersMeaning(seen, hs);
    if Allowed(hs) && IsLength(hs, n) {
      NoteHeadersAccepts(seen, hs, n);
    }
  }

  // ---------------------------------------------------------------- fragmentation

  /** A verdict on a prefix is never revised: a failed prefix stays failed, and a complete message
  followed by anything is refused as pipelining. */
  lemma MoreInput(limits: Limits, buffer: string, more: string)
    ensures Parse(limits, buffer).Failed? ==> Parse(limits, buffer + more).Failed?
    ensures Parse(limits, buffer).Complete? && more != "" ==>
              Parse(limits, buffer + more) == Failed(PipeliningNotSupported)
  {
    hide ParseRequestLine, AfterLine, Find;
    var whole := buffer + more;
    var lineEnd := Find(buffer, CRLF, 0);
    if lineEnd.Some? {
      FindAppend(buffer, more, CRLF, 0);
      assert whole[..lineEnd.value] == buffer[..lineEnd.value];
      if ParseRequestLine(buffer[..lineEnd.value]).Ok? {
        MoreInputAfterLine(limits, ParseRequestLine(buffer[..lineEnd.value]).value, lineEnd.value, buffer, more);
      }
    } else if |buffer| >= limits.maxHeader {
      NoLineNoBlankLine(buffer);
      NoRoomForHead(limits, buffer, more);
    }
  }

  /** A known head stays the head, whatever follows it. */
  lemma KnownHeadStays(limits: Limits, buffer: string, more: string)
    ensures var p := Parse(limits, buffer);
            p.AwaitingBody? ==> Parse(limits, buffer + more) == WithBody(p.head, |buffer| + |more|)
  {
    hide ParseRequestLine, ParseBlock, Validate, Find;
    if Parse(limits, buffer).AwaitingBody? {
      var lineEnd, headerEnd := Find(buffer, CRLF, 0).value, Find(buffer, CRLF_CRLF, 0).value;
      FindAppend(buffer, more, CRLF, 0);
      FindAppend(buffer, more, CRLF_CRLF, 0);
      assert (buffer + more)[..lineEnd] == buffer[..lineEnd];
      BlankLineAfterStartLine(buffer, lineEnd, headerEnd);
      ParseBlockAppend(buffer, more, lineEnd + 2, headerEnd);
    }
  }

  /** A buffer that has reached the header limit without a blank line never becomes acceptable. */
  lemma NoRoomForHead(limits: Limits, buffer: string, more: string)
    requires |buffer| >= limits.maxHeader && Find(buffer, CRLF_CRLF, 0).None?
    ensures Parse(limits, buffer + more).Failed?
  {
    hide ParseRequestLine, Find;
    FindAppendNew(buffer, more, CRLF_CRLF, 0);
  }

  lemma MoreInputAfterLine(limits: Limits, line: RequestLine, lineEnd: nat, buffer: string, more: string)
    requires Find(buffer, CRLF, 0) == Some(lineEnd)
    ensures AfterLine(limits, line, lineEnd, buffer).Failed? ==> AfterLine(limits, line, lineEnd, buffer + more).Failed?
    ensures AfterLine(limits, line, lineEnd, buffer).Complete? && more != "" ==>
              AfterLine(limits, line, lineEnd, buffer + more) == Failed(PipeliningNotSupported)
  {
    hide Find, ParseBlock, Validate;
    var headerEnd := Find(buffer, CRLF_CRLF, 0);
    if headerEnd.Some? {
      FindAppend(buffer, more, CRLF_CRLF, 0);
      BlankLineAfterStartLine(buffer, lineEnd, headerEnd.value);
      ParseBlockAppend(buffer, more, lineEnd + 2, headerEnd.value);
    } else {
      FindAppendNew(buffer, more, CRLF_CRLF, 0);
    }
  }

  function ConsumedAll(limits: Limits, fragments: seq<string>): State {
    if fragments == [] then INITIAL
    else Consumed(limits, ConsumedAll(limits, fragments[..|fragments| - 1]), fragments[|fragments| - 1])
  }

  /** `many` is the state of one call on `whole`, or refused too, or complete before the end. */
  predicate Agree(limits: Limits, whole: string, many: State) {
    var once := Consumed(limits, INITIAL, whole);
    && (once.progress.Complete? || Unfinished(once.progress) ==> many == once)
    && (once.progress.Failed? ==>
          || many.progress.Failed?
          || (many.progress.Complete? && many.buffer < whole && Consumed(limits, INITIAL, many.buffer) == many))
  }

  /** Feeding the octets in pieces against feeding them at once. While neither input is a complete
  message early the two agree; the only difference is a message that is already complete at a
  fragment boundary, which one call refuses because of the octets behind it. */
  lemma {:induction false} FragmentationIndependence(limits: Limits, fragments: seq<string>)
    requires fragments != []
    ensures Agree(limits, Flatten(fragments), ConsumedAll(limits, fragments))
    decreases |fragments|
  {
    hide Consumed;
    var n := |fragments| - 1;
    var last := fragments[n];
    if n == 0 {
      assert fragments[..0] == [] && Flatten([]) == "";
      assert "" + last == last;
    } else {
      hide Agree;
      FragmentationIndependence(limits, fragments[..n]);
      OneMoreFragment(limits, Flatten(fragments[..n]), last, ConsumedAll(limits, fragments[..n]));
    }
  }

  lemma OneMoreFragment(limits: Limits, whole: string, last: string, many: State)
    requires Agree(limits, whole, many)
    ensures Agree(limits, whole + last, Consumed(limits, many, last))
  {
    hide Parse;
    MoreInput(limits, whole, last);
    assert "" + whole == whole && whole + "" == whole && "" + (whole + last) == whole + last;
  }

  // ---------------------------------------------------------------- the class

  class RequestParser {
    const maxHeaderSize: nat
    const maxBodySize: nat
    const maxMessageSize: nat
    var buffer: string
    var requestLineParsed: bool
    var headersParsed: bool
    var headerFieldsStart: nat
    var headerBytes: nat
    var messageBytes: nat
    var contentLength: nat
    var line: RequestLine
    var headers: seq<HeaderField>
    var status: ParseStatus
    var error: Option<ParseError>

    ghost function Bounds(): Limits { Limits(maxHeaderSize, maxBodySize) }

    ghost function ParsedHead(): Head
      reads this
    {
      Head(line, headers, headerBytes, contentLength)
    }

    ghost function Abs(): State
      reads this
    {
      State(buffer,
            if status == Error && error.Some? then Failed(error.value)
            else if status == MessageComplete then Complete(ParsedHead())
            else if headersParsed then AwaitingBody(ParsedHead())
            else AwaitingHead)
    }

    /** The remembered positions are those one-call parsing would find in the octets so far. */
    ghost predicate Valid()
      reads this
    {
      && ValidLimits(Bounds()) && maxMessageSize == maxHeaderSize + maxBodySize
      && (status == Error <==> error.Some?)
      && (status == NeedMoreData ==> |buffer| <= maxMessageSize && Resumable(buffer))
    }

    /** The remembered positions are those one-call parsing finds in `octets`. */
    ghost predicate Resumable(octets: string)
      reads this
    {
      && (headersParsed ==> requestLineParsed)
      && (requestLineParsed ==>
            && headerFieldsStart >= 2
            && Find(octets, CRLF, 0) == Some(headerFieldsStart - 2)
            && ParseRequestLine(octets[..headerFieldsStart - 2]) == Ok(line))
      && (!headersParsed ==> headers == [] && headerBytes == 0)
      && (headersParsed ==>
            && 4 <= headerBytes <= maxHeaderSize
            && messageBytes == headerBytes + contentLength
            && Find(octets, CRLF_CRLF, 0) == Some(headerBytes - 4)
            && ParseHead(Bounds(), line, octets, headerFieldsStart, headerBytes - 4) == Ok(ParsedHead()))
    }

    lemma ResumableAppend(chunk: string)
      requires Resumable(buffer)
      ensures Resumable(buffer + chunk)
    {
      hide ParseRequestLine, Find, ParseBlock, Validate;
      if requestLineParsed {
        FindAppend(buffer, chunk, CRLF, 0);
        assert (buffer + chunk)[..headerFieldsStart - 2] == buffer[..headerFieldsStart - 2];
      }
      if headersParsed {
        FindAppend(buffer, chunk, CRLF_CRLF, 0);
        BlankLineAfterStartLine(buffer, headerFieldsStart - 2, headerBytes - 4);
        ParseBlockAppend(buffer, chunk, headerFieldsStart, headerBytes - 4);
      }
    }

    constructor (maxHeaderSize: nat, maxBodySize: nat)
      requires maxHeaderSize + maxBodySize <= SIZE_MAX
      ensures Valid() && Abs() == INITIAL && Bounds() == Limits(maxHeaderSize, maxBodySize)
    {
      this.maxHeaderSize, this.maxBodySize := maxHeaderSize, maxBodySize;
      maxMessageSize := maxHeaderSize + maxBodySize;
      buffer, requestLineParsed, headersParsed := "", false, false;
      headerFieldsStart, headerBytes, messageBytes, contentLength := 0, 0, 0, 0;
      line, headers, status, error := RequestLine("", "", ""), [], NeedMoreData, None;
    }

    method Fail(e: ParseError)
      requires ValidLimits(Bounds()) && maxMessageSize == maxHeaderSize + maxBodySize
      modifies this`status, this`error
      ensures Valid() && Abs() == State(buffer, Failed(e))
    {
      status, error := Error, Some(e);
    }

    method ParseHeaderFields(headerEnd: nat) returns (failure: Option<FieldError>)
      requires headerEnd + 4 <= |buffer| && headers == []
      modifies this`headers
      ensures ParseBlock(buffer, headerFieldsStart, headerEnd) ==
              if failure.Some? then Err(failure.value) else Ok(headers)
    {
      hide ParseHeaderLine, Find;
      if headerEnd + 2 == headerFieldsStart {
        return None;
      }
      if headerEnd < headerFieldsStart {
        return Some(MalformedLine);
      }
      var lineStart := headerFieldsStart;
      while lineStart < headerEnd
        invariant ParseLines(buffer, headerFieldsStart, headerEnd, []) == ParseLines(buffer, lineStart, headerEnd, headers)
        decreases |buffer| - lineStart
      {
        var lineEnd := Find(buffer, CRLF, lineStart);
        if lineEnd.None? || lineEnd.value > headerEnd {
          return Some(MalformedLine);
        }
        var parsed := ParseHeaderLine(buffer[lineStart..lineEnd.value]);
        if parsed.Err? {
          return Some(parsed.error);
        }
        headers := headers + [parsed.value];
        if lineEnd.value == headerEnd {
          return None;
        }
        lineStart := lineEnd.value + 2;
      }
      return None;
    }

    method ValidateMessageHeaders() returns (failure: Option<ParseError>)
      requires ValidLimits(Bounds()) && headerBytes <= maxHeaderSize
      modifies this`contentLength, this`messageBytes
      ensures failure.None? ==> messageBytes == headerBytes + contentLength
      ensures Validate(Bounds(), headers, headerBytes) ==
              if failure.Some? then Err(failure.value) else Ok(contentLength)
    {
      hide SizeOf;
      var hostCount, parsedLength := 0, None;
      for i := 0 to |headers|
        invariant NoteHeaders(Framing(0, None), headers) == NoteHeaders(Framing(hostCount, parsedLength), headers[i..])
      {
        var header := headers[i];
        assert headers[i..][1..] == headers[i + 1..];
        if Named(header, "Host") {
          hostCount := hostCount + 1;
          if header.value == "" {
            return Some(MissingHost);
          }
        }
        if Named(header, "Transfer-Encoding") {
          return Some(UnsupportedTransferEncoding);
        }
        if Named(header, "Expect") {
          return Some(UnsupportedExpectation);
        }
        if Named(header, "Content-Length") {
          var length := ParseSize(10, header.value);
          if length.None? {
            return Some(InvalidContentLength);
          }
          if parsedLength.Some? && parsedLength.value != length.value {
            return Some(ConflictingContentLength);
          }
          parsedLength := length;
        }
      }
      if hostCount == 0 {
        return Some(MissingHost);
      }
      if hostCount > 1 {
        return Some(DuplicateHost);
      }
      contentLength := if parsedLength.Some? then parsedLength.value else 0;
      if contentLength > maxBodySize {
        return Some(BodyTooLarge);
      }
      if contentLength > SIZE_MAX - headerBytes {
        return Some(InvalidContentLength);
      }
      messageBytes := headerBytes + contentLength;
      return None;
    }

    /** First stage of a call: the request line, unless it is known already. */
    method TakeRequestLine() returns (ready: bool)
      requires Valid() && status == NeedMoreData
      modifies this`line, this`headerFieldsStart, this`requestLineParsed, this`status, this`error
      ensures Valid()
      ensures ready ==> status == NeedMoreData && requestLineParsed
      ensures Parse(Bounds(), buffer) ==
              if ready then AfterLine(Bounds(), line, headerFieldsStart - 2, buffer) else Abs().progress
    {
      hide ParseRequestLine, Find, AfterLine, ParseHead;
      if !requestLineParsed {
        var requestLineEnd := Find(buffer, CRLF, 0);
        if requestLineEnd.None? {
          if |buffer| >= maxHeaderSize {
            Fail(HeaderTooLarge);
          }
          return false;
        }
        var parsed := ParseRequestLine(buffer[..requestLineEnd.value]);
        if parsed.Err? {
          Fail(parsed.error);
          return false;
        }
        line, headerFieldsStart, requestLineParsed := parsed.value, requestLineEnd.value + 2, true;
      }
      return true;
    }

    /** Second stage: the header block, unless it is known already. */
    method TakeHeaders() returns (ready: bool)
      requires Valid() && status == NeedMoreData && requestLineParsed
      modifies this`headers, this`headerBytes, this`contentLength, this`messageBytes, this`headersParsed
      modifies this`status, this`error
      ensures Valid()
      ensures ready ==> status == NeedMoreData && headersParsed
      ensures AfterLine(Bounds(), line, headerFieldsStart - 2, buffer) ==
              if ready then WithBody(ParsedHead(), |buffer|) else Abs().progress
    {
      hide ParseRequestLine, Find, ParseBlock, Validate, WithBody;
      if !headersParsed {
        var headerEnd := Find(buffer, CRLF_CRLF, 0);
        if headerEnd.None? {
          if |buffer| >= maxHeaderSize {
            Fail(HeaderTooLarge);
          }
          return false;
        }
        headerBytes := headerEnd.value + 4;
        if headerBytes > maxHeaderSize {
          Fail(HeaderTooLarge);
          return false;
        }
        var badField := ParseHeaderFields(headerEnd.value);
        if badField.Some? {
          Fail(BadHeader(badField.value));
          return false;
        }
        var badMessage := ValidateMessageHeaders();
        if badMessage.Some? {
          Fail(badMessage.value);
          return false;
        }
        headersParsed := true;
      }
      return true;
    }

    /** Resuming with the remembered positions gives what one call on all the octets gives. */
    method Consume(chunk: string)
      requires Valid()
      modifies this
      ensures Valid()
      ensures Abs() == Consumed(Bounds(), old(Abs()), chunk)
    {
      hide Parse, AfterLine, Find, ParseRequestLine, ParseHead;
      if status != NeedMoreData {
        return;
      }
      if chunk != "" {
        if |buffer| > maxMessageSize || |chunk| > maxMessageSize - |buffer| {
          Fail(BodyTooLarge);
          return;
        }
        ResumableAppend(chunk);
        buffer := buffer + chunk;
      }
      assert buffer == old(buffer) + chunk;
      var ready := TakeRequestLine();
      if !ready {
        return;
      }
      ready := TakeHeaders();
      if !ready || |buffer| < messageBytes {
        return;
      }
      if |buffer| > messageBytes {
        Fail(PipeliningNotSupported);
        return;
      }
      status := MessageComplete;
    }
  }
}
