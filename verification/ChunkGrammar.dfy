/** The chunked-body grammar of RFC 9112, section 7.1, with the decoder's limits, and the proof
that the decoder finishes on exactly the texts of that grammar. */
module ChunkGrammar {
  import opened Text
  import opened ChunkedDecoder

  datatype Chunk = Chunk(sizeLine: string, data: string)

  datatype Body = Body(chunks: seq<Chunk>, lastLine: string, trailers: seq<string>)

  function TrailersText(trailers: seq<string>): string {
    if trailers == [] then CRLF else trailers[0] + CRLF + TrailersText(trailers[1..])
  }

  function ChunkText(chunk: Chunk): string { chunk.sizeLine + CRLF + chunk.data + CRLF }

  function BodyText(body: Body): string
    decreases |body.chunks|
  {
    if body.chunks == [] then body.lastLine + CRLF + TrailersText(body.trailers)
    else ChunkText(body.chunks[0]) + BodyText(body.(chunks := body.chunks[1..]))
  }

  /** The decoded content. */
  function Content(chunks: seq<Chunk>): string {
    if chunks == [] then "" else chunks[0].data + Content(chunks[1..])
  }

  predicate LineFits(limits: Limits, line: string) {
    Lacks(line, '\r') && Lacks(line, '\n') && |line| <= limits.maxLine
  }

  predicate TrailerWellFormed(limits: Limits, line: string) {
    LineFits(limits, line) && line != "" && TrailerAccepted(line)
  }

  predicate ChunkWellFormed(limits: Limits, chunk: Chunk) {
    LineFits(limits, chunk.sizeLine) && chunk.data != "" && ChunkSize(chunk.sizeLine) == Some(|chunk.data|)
  }

  predicate WellFormed(limits: Limits, body: Body) {
    && (forall i | 0 <= i < |body.chunks| :: ChunkWellFormed(limits, body.chunks[i]))
    && LineFits(limits, body.lastLine) && ChunkSize(body.lastLine) == Some(0)
    && (forall i | 0 <= i < |body.trailers| :: TrailerWellFormed(limits, body.trailers[i]))
  }

  /** A trailer line needs a name before its colon, and the name may be any but those that frame
  the message or name its host, in whatever case. */
  lemma TrailerExactness(name: string, rest: string)
    requires Lacks(name, ':')
    ensures TrailerAccepted(name + ":" + rest) <==>
            && name != "" && AllToken(name)
            && Lower(name) != "content-length" && Lower(name) != "transfer-encoding" && Lower(name) != "host"
  {
    hide Find, AllToken, Lower;
    assert name + ":" + rest == "" + name + [':'] + rest;
    FindSeparator("", name, rest, ':');
    assert (name + ":" + rest)[..|name|] == name;
  }

  // ---------------------------------------------------------------- accepting a line, a chunk

  predicate AtLineStart(st: State) {
    (st.phase == SizeLine || st.phase == TrailerLine) && st.line == "" && !st.sawCr
  }

  lemma {:induction false} FeedLineCharacters(limits: Limits, st: State, line: string)
    requires (st.phase == SizeLine || st.phase == TrailerLine) && !st.sawCr
    requires Lacks(line, '\r') && Lacks(line, '\n') && |st.line| + |line| <= limits.maxLine
    ensures Feed(limits, st, line) == st.(line := st.line + line)
    decreases |line|
  {
    if line == "" {
      assert st.line + "" == st.line;
    } else {
      FeedLineCharacters(limits, Step(limits, st, line[0]), line[1..]);
      assert st.line + [line[0]] + line[1..] == st.line + line;
    }
  }

  lemma FeedLineEnd(limits: Limits, st: State)
    requires (st.phase == SizeLine || st.phase == TrailerLine) && !st.sawCr
    ensures Feed(limits, st, CRLF) == FinishLine(limits, st, st.line)
  {
    var saw := st.(sawCr := true);
    assert CRLF[1..] == ['\n'] && CRLF[1..][1..] == "";
    assert Step(limits, st, '\r') == saw;
    assert Step(limits, saw, '\n') == FinishLine(limits, st, st.line);
  }

  lemma FeedLine(limits: Limits, st: State, line: string, rest: string)
    requires AtLineStart(st) && LineFits(limits, line)
    ensures Feed(limits, st, line + CRLF + rest) == Feed(limits, FinishLine(limits, st, line), rest)
  {
    hide Feed, FinishLine, Step;
    FeedLineCharacters(limits, st, line);
    assert st.line + line == line;
    FeedLineEnd(limits, st.(line := line));
    FeedAppend(limits, st, line, CRLF);
    FeedAppend(limits, st, line + CRLF, rest);
    FinishIgnoresLine(limits, st, st.(line := line), line);
  }

  lemma FinishIgnoresLine(limits: Limits, a: State, b: State, line: string)
    requires a.phase == SizeLine || a.phase == TrailerLine
    requires a == b.(line := a.line, sawCr := a.sawCr)
    ensures FinishLine(limits, a, line) == FinishLine(limits, b, line)
  {
    assert a.(line := "", sawCr := false) == b.(line := "", sawCr := false);
  }

  lemma FeedChunkData(limits: Limits, st: State, data: string, rest: string)
    requires st.phase == Data && st.remaining == |data| > 0
    ensures Feed(limits, st, data + CRLF + rest) == Feed(limits, st.(remaining := 0, phase := SizeLine), rest)
  {
    FeedData(limits, st, data);
    assert data + CRLF + rest == data + (CRLF + rest);
    FeedAppend(limits, st, data, CRLF + rest);
    assert (CRLF + rest)[0] == '\r' && (CRLF + rest)[1..] == ['\n'] + rest;
    assert (['\n'] + rest)[0] == '\n' && (['\n'] + rest)[1..] == rest;
  }

  lemma FinishGoodSize(limits: Limits, st: State, line: string, n: nat)
    requires AtLineStart(st) && st.phase == SizeLine && ChunkSize(line) == Some(n)
    requires st.decoded + n <= limits.maxBody
    ensures FinishLine(limits, st, line) ==
            if n == 0 then st.(phase := TrailerLine)
            else st.(phase := Data, decoded := st.decoded + n, remaining := n)
  {
  }

  lemma GoodSizeOf(limits: Limits, st: State, line: string) returns (n: nat)
    requires AtLineStart(st) && st.phase == SizeLine && FinishLine(limits, st, line).phase != Error
    ensures ChunkSize(line) == Some(n) && st.decoded + n <= limits.maxBody
    ensures FinishLine(limits, st, line) ==
            if n == 0 then st.(phase := TrailerLine)
            else st.(phase := Data, decoded := st.decoded + n, remaining := n)
  {
    n := ChunkSize(line).value;
  }

  lemma FeedChunk(limits: Limits, st: State, chunk: Chunk, rest: string)
    requires AtLineStart(st) && st.phase == SizeLine && st.remaining == 0
    requires ChunkWellFormed(limits, chunk) && st.decoded + |chunk.data| <= limits.maxBody
    ensures Feed(limits, st, ChunkText(chunk) + rest) ==
            Feed(limits, st.(decoded := st.decoded + |chunk.data|), rest)
  {
    hide Feed, Step;
    assert ChunkText(chunk) + rest == chunk.sizeLine + CRLF + (chunk.data + CRLF + rest);
    FeedLine(limits, st, chunk.sizeLine, chunk.data + CRLF + rest);
    FinishGoodSize(limits, st, chunk.sizeLine, |chunk.data|);
    FeedChunkData(limits, FinishLine(limits, st, chunk.sizeLine), chunk.data, rest);
  }

  lemma {:induction false} FeedTrailers(limits: Limits, st: State, trailers: seq<string>)
    requires AtLineStart(st) && st.phase == TrailerLine
    requires forall i | 0 <= i < |trailers| :: TrailerWellFormed(limits, trailers[i])
    ensures Feed(limits, st, TrailersText(trailers)) == st.(phase := Complete)
    decreases |trailers|
  {
    if trailers == [] {
      FeedLine(limits, st, "", "");
      assert "" + CRLF + "" == CRLF;
    } else {
      FeedLine(limits, st, trailers[0], TrailersText(trailers[1..]));
      FeedTrailers(limits, st, trailers[1..]);
    }
  }

  lemma {:induction false} FeedBody(limits: Limits, st: State, body: Body)
    requires AtLineStart(st) && st.phase == SizeLine && st.remaining == 0
    requires WellFormed(limits, body) && st.decoded + |Content(body.chunks)| <= limits.maxBody
    ensures Feed(limits, st, BodyText(body)) ==
            st.(phase := Complete, decoded := st.decoded + |Content(body.chunks)|)
    decreases |body.chunks|
  {
    hide Feed, Step, FinishLine, ChunkSize;
    if body.chunks == [] {
      FinishGoodSize(limits, st, body.lastLine, 0);
      FeedLine(limits, st, body.lastLine, TrailersText(body.trailers));
      FeedTrailers(limits, st.(phase := TrailerLine), body.trailers);
    } else {
      var rest := body.(chunks := body.chunks[1..]);
      assert forall i | 0 <= i < |rest.chunks| :: rest.chunks[i] == body.chunks[i + 1];
      FeedChunk(limits, st, body.chunks[0], BodyText(rest));
      FeedBody(limits, st.(decoded := st.decoded + |body.chunks[0].data|), rest);
    }
  }

  // ---------------------------------------------------------------- reading the grammar back

  lemma NotFailed(limits: Limits, st: State, bytes: string)
    requires Feed(limits, st, bytes).phase == Complete
    ensures st.phase != Error
  {
    if st.phase == Error {
      FeedError(limits, st, bytes);
    }
  }

  lemma LineFeedOf(limits: Limits, st: State, bytes: string)
    requires (st.phase == SizeLine || st.phase == TrailerLine) && st.sawCr
    requires Feed(limits, st, bytes).phase == Complete
    ensures bytes != "" && bytes[0] == '\n'
    ensures Feed(limits, st, bytes) == Feed(limits, FinishLine(limits, st, st.line), bytes[1..])
  {
    NotFailed(limits, Step(limits, st, bytes[0]), bytes[1..]);
  }

  /** A run that finishes from inside a line finds that line's end. */
  lemma {:induction false} LineOf(limits: Limits, st: State, bytes: string) returns (k: nat)
    requires (st.phase == SizeLine || st.phase == TrailerLine) && !st.sawCr
    requires Feed(limits, st, bytes).phase == Complete
    ensures k + 2 <= |bytes| && bytes[k] == '\r' && bytes[k + 1] == '\n'
    ensures Lacks(bytes[..k], '\r') && Lacks(bytes[..k], '\n') && (k > 0 ==> |st.line| + k <= limits.maxLine)
    ensures Feed(limits, st, bytes) == Feed(limits, FinishLine(limits, st, st.line + bytes[..k]), bytes[k + 2..])
    decreases |bytes|
  {
    hide FinishLine;
    var st1 := Step(limits, st, bytes[0]);
    var tail := bytes[1..];
    NotFailed(limits, st1, tail);
    if bytes[0] == '\r' {
      k := 0;
      LineFeedOf(limits, st1, tail);
      assert tail[1..] == bytes[2..];
      assert st.line + bytes[..0] == st.line;
      FinishIgnoresLine(limits, st, st1, st.line);
    } else {
      var j := LineOf(limits, st1, tail);
      k := j + 1;
      assert bytes[..k] == [bytes[0]] + tail[..j];
      assert st1.line + tail[..j] == st.line + bytes[..k];
      assert tail[j + 2..] == bytes[k + 2..];
      FinishIgnoresLine(limits, st, st1, st.line + bytes[..k]);
    }
  }

  lemma SplitLine(limits: Limits, st: State, bytes: string) returns (line: string, rest: string)
    requires AtLineStart(st) && Feed(limits, st, bytes).phase == Complete
    ensures bytes == line + CRLF + rest && LineFits(limits, line) && |rest| < |bytes|
    ensures FinishLine(limits, st, line).phase != Error
    ensures Feed(limits, FinishLine(limits, st, line), rest) == Feed(limits, st, bytes)
  {
    hide Feed, Step, FinishLine;
    var k := LineOf(limits, st, bytes);
    line, rest := bytes[..k], bytes[k + 2..];
    assert bytes == bytes[..k] + bytes[k..k + 2] + bytes[k + 2..];
    assert bytes[k..k + 2] == CRLF;
    assert st.line + line == line;
    NotFailed(limits, FinishLine(limits, st, line), rest);
  }

  lemma {:induction false} TrailersOf(limits: Limits, st: State, bytes: string) returns (trailers: seq<string>)
    requires AtLineStart(st) && st.phase == TrailerLine && Feed(limits, st, bytes).phase == Complete
    ensures forall i | 0 <= i < |trailers| :: TrailerWellFormed(limits, trailers[i])
    ensures bytes == TrailersText(trailers)
    decreases |bytes|
  {
    var line, rest := SplitLine(limits, st, bytes);
    if line == "" {
      if rest != "" {
        FeedComplete(limits, st.(phase := Complete), rest);
      }
      trailers := [];
    } else {
      var more := TrailersOf(limits, st, rest);
      trailers := [line] + more;
      assert trailers[1..] == more;
    }
  }

  /** A run that finishes from inside chunk data finds the data and its CRLF. */
  lemma DataOf(limits: Limits, st: State, bytes: string) returns (data: string, rest: string)
    requires st.phase == Data && st.remaining > 0 && Feed(limits, st, bytes).phase == Complete
    ensures |data| == st.remaining && bytes == data + CRLF + rest
    ensures Feed(limits, st.(remaining := 0, phase := SizeLine), rest) == Feed(limits, st, bytes)
  {
    if |bytes| <= st.remaining {
      FeedData(limits, st, bytes);
      assert false;
    }
    var n := st.remaining;
    data := bytes[..n];
    var tail := bytes[n..];
    assert bytes == data + tail;
    FeedData(limits, st, data);
    FeedAppend(limits, st, data, tail);
    var st1 := st.(remaining := 0, phase := DataCr);
    if tail[0] != '\r' {
      FeedError(limits, Step(limits, st1, tail[0]), tail[1..]);
      assert false;
    }
    var st2 := st1.(phase := DataLf);
    assert |tail| > 1;
    assert tail[1..][0] == tail[1];
    if tail[1] != '\n' {
      FeedError(limits, Step(limits, st2, tail[1]), tail[1..][1..]);
      assert false;
    }
    rest := tail[2..];
    assert tail[1..][1..] == rest;
    assert tail == CRLF + rest;
  }

  lemma {:induction false} BodyOf(limits: Limits, st: State, bytes: string) returns (body: Body)
    requires AtLineStart(st) && st.phase == SizeLine && st.remaining == 0
    requires Feed(limits, st, bytes).phase == Complete
    ensures WellFormed(limits, body) && bytes == BodyText(body)
    ensures st.decoded + |Content(body.chunks)| == Feed(limits, st, bytes).decoded
    ensures body.chunks != [] ==> Feed(limits, st, bytes).decoded <= limits.maxBody
    decreases |bytes|
  {
    hide Feed, Step, FinishLine, ChunkSize;
    var line, rest := SplitLine(limits, st, bytes);
    var n := GoodSizeOf(limits, st, line);
    var st1 := FinishLine(limits, st, line);
    if n == 0 {
      var trailers := TrailersOf(limits, st1, rest);
      body := Body([], line, trailers);
      FeedTrailers(limits, st1, trailers);
    } else {
      var data, rest1 := DataOf(limits, st1, rest);
      var st2 := st1.(remaining := 0, phase := SizeLine);
      var more := BodyOf(limits, st2, rest1);
      var chunk := Chunk(line, data);
      body := more.(chunks := [chunk] + more.chunks);
      assert body.chunks[1..] == more.chunks;
      assert body.(chunks := body.chunks[1..]) == more;
      assert ChunkText(chunk) + BodyText(more) == line + CRLF + (data + CRLF + BodyText(more));
      if more.chunks == [] {
        assert Content(more.chunks) == "";
      }
    }
  }

  // ---------------------------------------------------------------- exactness

  ghost predicate IsChunkedBody(limits: Limits, bytes: string, length: nat) {
    exists body :: WellFormed(limits, body) && bytes == BodyText(body) && |Content(body.chunks)| == length
  }

  /** A fresh decoder finishes exactly on the texts of the grammar whose content fits the limit,
  and reports the length of the content. */
  lemma DecoderExactness(limits: Limits, bytes: string, length: nat)
    ensures (Feed(limits, INITIAL, bytes).phase == Complete && Feed(limits, INITIAL, bytes).decoded == length)
            <==> (IsChunkedBody(limits, bytes, length) && length <= limits.maxBody)
  {
    var st := Feed(limits, INITIAL, bytes);
    if st.phase == Complete && st.decoded == length {
      var body := BodyOf(limits, INITIAL, bytes);
      FeedConsistent(limits, INITIAL, bytes);
    }
    if IsChunkedBody(limits, bytes, length) && length <= limits.maxBody {
      var body :| WellFormed(limits, body) && bytes == BodyText(body) && |Content(body.chunks)| == length;
      FeedBody(limits, INITIAL, body);
    }
  }
}
