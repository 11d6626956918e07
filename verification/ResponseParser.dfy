/** The incremental response parser: it resumes from remembered positions, and reaches the state
that one-call parsing of all its input gives. */
module IncrementalResponse {
  import opened Text
  import opened HeaderFields
  import opened ResponseParsing
  import ChunkedDecoder
  import Pieces = ResponseFragmentation

  datatype ParseStatus = NeedMoreData | MessageComplete | Error

  class ResponseParser {
    const requestMethod: string
    const maxHeaderSize: nat
    const maxBodySize: nat
    const maxMessageSize: nat
    var buffer: string
    var statusLineParsed: bool
    var headersParsed: bool
    var headerFieldsStart: nat
    var headerBytes: nat
    var messageBytes: nat
    var line: StatusLine
    var bodyMode: BodyMode
    var headers: seq<HeaderField>
    var trailers: seq<HeaderField>
    var decodedChunkedBody: string
    var chunkState: Stage
    var chunkPosition: nat
    var trailersStart: nat
    var currentChunkSize: nat
    var status: ParseStatus
    var error: Option<ResponseError>

    ghost function Bounds(): Setup { Setup(requestMethod, maxHeaderSize, maxBodySize) }

    ghost function ParsedHead(): Head
      reads this`line, this`headers, this`headerBytes, this`bodyMode
    {
      Head(line, headers, headerBytes, bodyMode)
    }

    ghost function ChunkFields(): Scan
      reads this`chunkState, this`chunkPosition, this`trailersStart, this`currentChunkSize, this`decodedChunkedBody
      reads this`trailers
    {
      Scan(chunkState, chunkPosition, trailersStart, currentChunkSize, decodedChunkedBody, trailers)
    }

    /** The body accessor of a complete response. */
    function Body(): string
      reads this
      requires headerBytes <= messageBytes <= |buffer|
    {
      match bodyMode
      case Chunked => decodedChunkedBody
      case NoBody => ""
      case _ => buffer[headerBytes..messageBytes]
    }

    ghost function Abs(): State
      reads this
      requires status == MessageComplete ==> headerBytes <= messageBytes <= |buffer|
    {
      State(buffer,
            if status == Error && error.Some? then Failed(error.value)
            else if status == MessageComplete then Complete(ParsedHead(), Body(), trailers, messageBytes)
            else if headersParsed then
              AwaitingBody(ParsedHead(), if bodyMode == Chunked then ChunkFields() else StartScan(headerBytes))
            else AwaitingHead)
    }

    ghost predicate Valid()
      reads this
    {
      && Limits()
      && (status == Error <==> error.Some?)
      && (status == MessageComplete ==> headerBytes <= messageBytes <= |buffer|)
      && (status == NeedMoreData ==> |buffer| <= maxMessageSize && Resumable(buffer) && Stopped())
    }

    ghost predicate Limits() {
      ValidSetup(Bounds()) && maxMessageSize == maxHeaderSize + maxBodySize
    }

    /** The remembered positions are on the way of one-call parsing of `octets`. */
    ghost predicate Resumable(octets: string)
      reads this`statusLineParsed, this`headersParsed, this`headerFieldsStart, this`messageBytes
      reads this`line, this`headers, this`headerBytes, this`bodyMode
      reads this`chunkState, this`chunkPosition, this`trailersStart, this`currentChunkSize, this`decodedChunkedBody
      reads this`trailers
    {
      && (headersParsed ==> statusLineParsed && HasHead(Bounds(), octets, ParsedHead()) && MessageSized())
      && (statusLineParsed ==>
            && headerFieldsStart >= 2
            && Find(octets, CRLF, 0) == Some(headerFieldsStart - 2)
            && ParseStatusLine(octets[..headerFieldsStart - 2]) == Ok(line))
      && (!headersParsed ==> headers == [] && headerBytes == 0)
      && (!(headersParsed && bodyMode == Chunked) ==> FreshScan())
      && (headersParsed && bodyMode == Chunked ==> OnTheWay(octets))
    }

    ghost predicate FreshScan()
      reads this`chunkState, this`chunkPosition, this`trailersStart, this`currentChunkSize, this`decodedChunkedBody
      reads this`trailers
    {
      ChunkFields() == StartScan(chunkPosition)
    }

    ghost predicate OnTheWay(octets: string)
      reads this`headerBytes
      reads this`chunkState, this`chunkPosition, this`trailersStart, this`currentChunkSize, this`decodedChunkedBody
      reads this`trailers
    {
      && headerBytes <= chunkPosition <= |octets|
      && Run(Bounds(), octets, StartScan(headerBytes)) == Run(Bounds(), octets, ChunkFields())
    }

    ghost predicate MessageSized()
      reads this`bodyMode, this`messageBytes, this`headerBytes
    {
      match bodyMode
      case NoBody => messageBytes == headerBytes
      case ContentLength(n) => messageBytes == headerBytes + n
      case _ => true
    }

    ghost predicate Stopped()
      reads this
    {
      headersParsed && bodyMode == Chunked ==>
        && headerBytes <= chunkPosition <= |buffer|
        && Run(Bounds(), buffer, StartScan(headerBytes)) == (ChunkFields(), Wait)
    }

    constructor (requestMethod: string, maxHeaderSize: nat, maxBodySize: nat)
      requires maxHeaderSize + maxBodySize <= SIZE_MAX
      ensures Valid() && Abs() == INITIAL && Bounds() == Setup(requestMethod, maxHeaderSize, maxBodySize)
    {
      this.requestMethod, this.maxHeaderSize, this.maxBodySize := requestMethod, maxHeaderSize, maxBodySize;
      maxMessageSize := maxHeaderSize + maxBodySize;
      buffer, statusLineParsed, headersParsed := "", false, false;
      headerFieldsStart, headerBytes, messageBytes := 0, 0, 0;
      line, bodyMode, headers, trailers := StatusLine("", 0, ""), CloseDelimited, [], [];
      decodedChunkedBody, chunkState, chunkPosition, trailersStart, currentChunkSize := "", AtSize, 0, 0, 0;
      status, error := NeedMoreData, None;
    }

    lemma ResumableAppend(chunk: string)
      requires Resumable(buffer) && Stopped()
      ensures Resumable(buffer + chunk)
    {
      hide ParseStatusLine, Find, HasHead, Run;
      if statusLineParsed {
        FindAppend(buffer, chunk, CRLF, 0);
        assert (buffer + chunk)[..headerFieldsStart - 2] == buffer[..headerFieldsStart - 2];
      }
      if headersParsed {
        HeadAppend(Bounds(), buffer, chunk, ParsedHead());
        if bodyMode == Chunked {
          Pieces.RunAppend(Bounds(), buffer, chunk, StartScan(headerBytes));
        }
      }
    }

    method Fail(e: ResponseError)
      requires Limits()
      modifies this`status, this`error
      ensures Valid() && Abs() == State(buffer, Failed(e))
    {
      status, error := Error, Some(e);
    }

    method ParseHeaderFields(headerEnd: nat) returns (failure: Option<FieldError>)
      requires headerEnd + 4 <= |buffer| && headers == []
      modifies this`headers
      ensures ParseBlock(buffer, headerFieldsStart, headerEnd) ==
              if failure.Some? then Err(failure.value) else Ok(headers)
    {
      hide ParseHeaderLine, Find;
      if headerEnd + 2 == headerFieldsStart {
        return None;
      }
      if headerEnd < headerFieldsStart {
        return Some(MalformedLine);
      }
      var lineStart := headerFieldsStart;
      while lineStart < headerEnd
        invariant ParseLines(buffer, headerFieldsStart, headerEnd, []) == ParseLines(buffer, lineStart, headerEnd, headers)
        decreases |buffer| - lineStart
      {
        var lineEnd := Find(buffer, CRLF, lineStart);
        if lineEnd.None? || lineEnd.value > headerEnd {
          return Some(MalformedLine);
        }
        var parsed := ParseHeaderLine(buffer[lineStart..lineEnd.value]);
        if parsed.Err? {
          return Some(parsed.error);
        }
        headers := headers + [parsed.value];
        if lineEnd.value == headerEnd {
          return None;
        }
        lineStart := lineEnd.value + 2;
      }
      return None;
    }

    method SelectMode() returns (failure: Option<ResponseError>)
      requires Limits() && headerBytes <= maxHeaderSize
      modifies this`bodyMode, this`messageBytes, this`chunkPosition
      ensures SelectBodyMode(Bounds(), line.code, headers, headerBytes) ==
              if failure.Some? then Err(failure.value) else Ok(bodyMode)
      ensures failure.None? ==> MessageSized() && (bodyMode == Chunked ==> chunkPosition == headerBytes)
    {
      hide SizeOf, Bodiless;
      var parsedLength: Option<nat>, hasTransferEncoding := None, false;
      for i := 0 to |headers|
        invariant NoteHeaders(Framing(None, false), headers) ==
                  NoteHeaders(Framing(parsedLength, hasTransferEncoding), headers[i..])
      {
        var header := headers[i];
        assert headers[i..][1..] == headers[i + 1..];
        if Named(header, "Content-Length") {
          var length := ParseSize(10, header.value);
          if length.None? {
            return Some(InvalidContentLength);
          }
          if parsedLength.Some? && parsedLength.value != length.value {
            return Some(ConflictingContentLength);
          }
          parsedLength := length;
        }
        if Named(header, "Transfer-Encoding") {
          if !EqualsIgnoreCase(header.value, "chunked") {
            return Some(UnsupportedTransferEncoding);
          }
          hasTransferEncoding := true;
        }
      }
      if hasTransferEncoding && parsedLength.Some? {
        return Some(ConflictingMessageFraming);
      }
      if Bodiless(requestMethod, line.code) {
        bodyMode, messageBytes := NoBody, headerBytes;
        return None;
      }
      if hasTransferEncoding {
        bodyMode, chunkPosition := Chunked, headerBytes;
        return None;
      }
      if parsedLength.Some? {
        if parsedLength.value > maxBodySize {
          return Some(BodyTooLarge);
        }
        if parsedLength.value > SIZE_MAX - headerBytes {
          return Some(InvalidContentLength);
        }
        bodyMode, messageBytes := ContentLength(parsedLength.value), headerBytes + parsedLength.value;
        return None;
      }
      bodyMode := CloseDelimited;
      return None;
    }

    /** What one scanning step has done to the state, given the move it stands for. */
    ghost predicate Moved(before: Scan, move: Move, more: bool)
      reads this
    {
      && (status == Error <==> error.Some?)
      && (more <==> move.Advance?) && (more <==> (status == NeedMoreData && ChunkFields() != before))
      && (if more then move == Advance(ChunkFields()) else ChunkFields() == before)
      && (move == Wait ==> status == NeedMoreData)
      && (move.Reject? ==> status == Error && error == Some(move.error))
      && (move.Finish? ==> status == MessageComplete && messageBytes == move.messageBytes)
    }

    method ReadSizeLine() returns (more: bool)
      requires Limits() && status == NeedMoreData && error == None && chunkState == AtSize && chunkPosition <= |buffer|
      modifies this`chunkPosition, this`chunkState, this`currentChunkSize, this`trailersStart, this`status, this`error
      ensures Moved(old(ChunkFields()), MoveOn(Bounds(), buffer, old(ChunkFields())), more)
    {
      hide ExtensionAccepted, Text.SizeOf;
      var lineEnd := Find(buffer, CRLF, chunkPosition);
      if lineEnd.None? {
        if |buffer| - chunkPosition >= maxHeaderSize {
          status, error := Error, Some(InvalidChunkSize);
        }
        return false;
      }
      var text := buffer[chunkPosition..lineEnd.value];
      if !ExtensionAccepted(text) {
        status, error := Error, Some(InvalidChunkSize);
        return false;
      }
      var size := ParseSize(16, ChunkedDecoder.SizeText(text));
      if size.None? {
        status, error := Error, Some(InvalidChunkSize);
        return false;
      }
      if size.value != 0 && (|decodedChunkedBody| > maxBodySize || size.value > maxBodySize - |decodedChunkedBody|) {
        status, error := Error, Some(BodyTooLarge);
        return false;
      }
      currentChunkSize, chunkPosition := size.value, lineEnd.value + 2;
      if currentChunkSize == 0 {
        chunkState, trailersStart := AtTrailers, chunkPosition;
      } else {
        chunkState := AtData;
      }
      return true;
    }

    method ReadData() returns (more: bool)
      requires Limits() && status == NeedMoreData && error == None && chunkState == AtData && chunkPosition <= |buffer|
      modifies this`chunkPosition, this`chunkState, this`decodedChunkedBody, this`status, this`error
      ensures Moved(old(ChunkFields()), MoveOn(Bounds(), buffer, old(ChunkFields())), more)
    {
      if chunkPosition > SIZE_MAX - 2 || currentChunkSize > SIZE_MAX - chunkPosition - 2 {
        status, error := Error, Some(InvalidChunkSize);
        return false;
      }
      var dataEnd := chunkPosition + currentChunkSize;
      if |buffer| < dataEnd + 2 {
        return false;
      }
      if buffer[dataEnd..dataEnd + 2] != CRLF {
        status, error := Error, Some(InvalidChunkTerminator);
        return false;
      }
      decodedChunkedBody := decodedChunkedBody + buffer[chunkPosition..dataEnd];
      chunkPosition, chunkState := dataEnd + 2, AtSize;
      return true;
    }

    method ReadTrailer() returns (more: bool)
      requires Limits() && status == NeedMoreData && error == None && chunkState == AtTrailers && chunkPosition <= |buffer|
      modifies this`chunkPosition, this`trailers, this`messageBytes, this`status, this`error
      ensures Moved(old(ChunkFields()), MoveOn(Bounds(), buffer, old(ChunkFields())), more)
    {
      hide ParseHeaderLine, ChunkedDecoder.ForbiddenTrailer;
      var lineEnd := Find(buffer, CRLF, chunkPosition);
      if lineEnd.None? {
        if |buffer| - trailersStart >= maxHeaderSize {
          status, error := Error, Some(HeaderTooLarge);
        }
        return false;
      }
      if lineEnd.value + 2 - trailersStart > maxHeaderSize {
        status, error := Error, Some(HeaderTooLarge);
        return false;
      }
      if lineEnd.value == chunkPosition {
        messageBytes, status := lineEnd.value + 2, MessageComplete;
        return false;
      }
      var parsed := ParseHeaderLine(buffer[chunkPosition..lineEnd.value]);
      if parsed.Err? || ChunkedDecoder.ForbiddenTrailer(parsed.value.name) {
        status, error := Error, Some(InvalidTrailer);
        return false;
      }
      trailers, chunkPosition := trailers + [parsed.value], lineEnd.value + 2;
      return true;
    }

    /** The scanning loop, resumed from the remembered position. */
    method ParseChunkedBody()
      requires Limits() && status == NeedMoreData && error == None && |buffer| <= maxMessageSize
      requires headersParsed && bodyMode == Chunked && Resumable(buffer)
      modifies this`chunkPosition, this`chunkState, this`currentChunkSize, this`trailersStart
      modifies this`decodedChunkedBody, this`trailers, this`messageBytes, this`status, this`error
      ensures Valid()
      ensures Abs().progress == AfterRun(ParsedHead(), Run(Bounds(), buffer, StartScan(headerBytes)))
    {
      hide HasHead, Find, ParseStatusLine, MoveOn, Run;
      while true
        invariant status == NeedMoreData && error == None && Resumable(buffer)
        decreases |buffer| - chunkPosition
      {
        RunStep(Bounds(), buffer, ChunkFields());
        var more;
        if chunkState == AtSize {
          more := ReadSizeLine();
        } else if chunkState == AtData {
          more := ReadData();
        } else {
          more := ReadTrailer();
        }
        if !more {
          return;
        }
      }
    }

    /** First stage of a call: the status line, unless it is known already. */
    method TakeStatusLine() returns (ready: bool)
      requires Limits() && status == NeedMoreData && error == None && |buffer| <= maxMessageSize && Resumable(buffer)
      modifies this`line, this`headerFieldsStart, this`statusLineParsed, this`status, this`error
      ensures if ready then status == NeedMoreData && error == None && Resumable(buffer) && statusLineParsed else Valid()
      ensures Parse(Bounds(), buffer) ==
              if ready then AfterLine(Bounds(), line, headerFieldsStart - 2, buffer) else Abs().progress
    {
      hide ParseStatusLine, Find, AfterLine, ParseHead, Run;
      if !statusLineParsed {
        var statusLineEnd := Find(buffer, CRLF, 0);
        if statusLineEnd.None? {
          if |buffer| >= maxHeaderSize {
            Fail(HeaderTooLarge);
          }
          return false;
        }
        var parsed := ParseStatusLine(buffer[..statusLineEnd.value]);
        if parsed.Err? {
          Fail(parsed.error);
          return false;
        }
        line, headerFieldsStart, statusLineParsed := parsed.value, statusLineEnd.value + 2, true;
      }
      return true;
    }

    /** Second stage: the header block and the body mode, unless they are known already. */
    method TakeHeaders() returns (ready: bool)
      requires Limits() && status == NeedMoreData && error == None && |buffer| <= maxMessageSize
      requires Resumable(buffer) && statusLineParsed
      modifies this`headers, this`headerBytes, this`bodyMode, this`messageBytes, this`chunkPosition, this`headersParsed
      modifies this`status, this`error
      ensures if ready then status == NeedMoreData && error == None && Resumable(buffer) && headersParsed else Valid()
      ensures ready ==> headerBytes <= |buffer|
      ensures AfterLine(Bounds(), line, headerFieldsStart - 2, buffer) ==
              if ready then WithBody(Bounds(), ParsedHead(), buffer) else Abs().progress
    {
      hide ParseStatusLine, Find, ParseBlock, SelectBodyMode, WithBody, Run, Resumable, HasHead;
      if headersParsed {
        HeadIsKnown();
        return true;
      }
      ready := ReadHeaders();
    }

    lemma HeadIsKnown()
      requires Resumable(buffer) && headersParsed
      ensures headerBytes <= |buffer|
      ensures AfterLine(Bounds(), line, headerFieldsStart - 2, buffer) == WithBody(Bounds(), ParsedHead(), buffer)
    {
      hide ParseStatusLine, Find, ParseBlock, SelectBodyMode, WithBody, Run, MessageSized;
    }

    method ReadHeaders() returns (ready: bool)
      requires Limits() && status == NeedMoreData && error == None && |buffer| <= maxMessageSize
      requires Resumable(buffer) && statusLineParsed && !headersParsed
      modifies this`headers, this`headerBytes, this`bodyMode, this`messageBytes, this`chunkPosition, this`headersParsed
      modifies this`status, this`error
      ensures if ready then status == NeedMoreData && error == None && Resumable(buffer) && headersParsed else Valid()
      ensures ready ==> headerBytes <= |buffer|
      ensures AfterLine(Bounds(), line, headerFieldsStart - 2, buffer) ==
              if ready then WithBody(Bounds(), ParsedHead(), buffer) else Abs().progress
    {
      hide ParseStatusLine, Find, ParseBlock, SelectBodyMode, WithBody, Run, Resumable, MessageSized;
      BeforeHead();
      var headerEnd := Find(buffer, CRLF_CRLF, 0);
      if headerEnd.None? {
        if |buffer| >= maxHeaderSize {
          Fail(HeaderTooLarge);
        }
        return false;
      }
      headerBytes := headerEnd.value + 4;
      if headerBytes > maxHeaderSize {
        Fail(HeaderTooLarge);
        return false;
      }
      var badField := ParseHeaderFields(headerEnd.value);
      if badField.Some? {
        Fail(BadHeader(badField.value));
        return false;
      }
      var badFraming := SelectMode();
      if badFraming.Some? {
        Fail(badFraming.value);
        return false;
      }
      headersParsed := true;
      HeadIsRead();
      return true;
    }

    lemma BeforeHead()
      requires Resumable(buffer) && statusLineParsed && !headersParsed
      ensures headers == [] && headerFieldsStart >= 2 && FreshScan()
      ensures Find(buffer, CRLF, 0) == Some(headerFieldsStart - 2)
      ensures ParseStatusLine(buffer[..headerFieldsStart - 2]) == Ok(line)
    {
      hide Find, ParseStatusLine, Run;
    }

    /** With the head just parsed, the chunk scanner stands at its start. */
    lemma HeadIsRead()
      requires headersParsed && statusLineParsed && headerFieldsStart >= 2 && MessageSized()
      requires Find(buffer, CRLF, 0) == Some(headerFieldsStart - 2)
      requires ParseStatusLine(buffer[..headerFieldsStart - 2]) == Ok(line)
      requires headerBytes >= 4 && Find(buffer, CRLF_CRLF, 0) == Some(headerBytes - 4) && headerBytes <= maxHeaderSize
      requires headerBytes <= |buffer| && ParseHead(Bounds(), line, buffer, headerFieldsStart, headerBytes - 4) == Ok(ParsedHead())
      requires FreshScan() && (bodyMode == Chunked ==> chunkPosition == headerBytes)
      ensures Resumable(buffer)
    {
      hide Find, ParseStatusLine, ParseHead, Run, MessageSized;
    }

    /** Last stage: is the response complete in the selected mode? */
    method ParseBody()
      requires Limits() && status == NeedMoreData && error == None && |buffer| <= maxMessageSize
      requires Resumable(buffer) && headersParsed && headerBytes <= |buffer|
      modifies this`chunkPosition, this`chunkState, this`currentChunkSize, this`trailersStart
      modifies this`decodedChunkedBody, this`trailers, this`messageBytes, this`status, this`error
      ensures Valid() && Abs().progress == WithBody(Bounds(), ParsedHead(), buffer)
    {
      hide HasHead, Find, ParseStatusLine, Run;
      match bodyMode
      case NoBody =>
        status := MessageComplete;
      case ContentLength(_) =>
        if |buffer| >= messageBytes {
          status := MessageComplete;
        }
      case Chunked =>
        ParseChunkedBody();
      case CloseDelimited =>
        if |buffer| - headerBytes > maxBodySize {
          Fail(BodyTooLarge);
        }
    }

    /** Resuming with the remembered positions gives what one call on all the octets gives. */
    method Consume(chunk: string)
      requires Valid()
      modifies this
      ensures Valid()
      ensures Abs() == Consumed(Bounds(), old(Abs()), chunk)
    {
      hide Parse, AfterLine, WithBody, Run, ParseStatusLine, Find, Resumable;
      if status != NeedMoreData {
        return;
      }
      if chunk != "" {
        if |buffer| > maxMessageSize || |chunk| > maxMessageSize - |buffer| {
          Fail(BodyTooLarge);
          return;
        }
        ResumableAppend(chunk);
        buffer := buffer + chunk;
      }
      assert buffer == old(buffer) + chunk;
      var ready := TakeStatusLine();
      if !ready {
        return;
      }
      ready := TakeHeaders();
      if !ready {
        return;
      }
      ParseBody();
    }

    method NotifyEof()
      requires Valid()
      modifies this`messageBytes, this`status, this`error
      ensures Valid() && Abs() == Ended(Bounds(), old(Abs()))
    {
      hide Find, ParseStatusLine, Run, HasHead, Parse, WithBody, OnTheWay, MessageSized, Stopped;
      if status != NeedMoreData {
        return;
      }
      if !headersParsed {
        Fail(UnexpectedEof);
        return;
      }
      ParseWithHead(Bounds(), buffer, ParsedHead());
      assert buffer[headerBytes..|buffer|] == buffer[headerBytes..];
      if bodyMode != CloseDelimited {
        Fail(UnexpectedEof);
        return;
      }
      if |buffer| - headerBytes > maxBodySize {
        Fail(BodyTooLarge);
        return;
      }
      messageBytes := |buffer|;
      status := MessageComplete;
    }
  }
}
