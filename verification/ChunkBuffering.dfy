/** Which chunked bodies of the grammar the buffering parser accepts: it reads extensions, trailer
values and the size of the trailer block more strictly than the streaming decoder. */
module ChunkBuffering {
  import opened Text
  import opened HeaderFields
  import opened ResponseParsing
  import CD = ChunkedDecoder
  import CG = ChunkGrammar

  predicate TrailersParse(trailers: seq<string>) {
    forall i | 0 <= i < |trailers| :: ParseHeaderLine(trailers[i]).Ok?
  }

  predicate ExtensionsParse(body: CG.Body) {
    (forall i | 0 <= i < |body.chunks| :: ExtensionAccepted(body.chunks[i].sizeLine)) && ExtensionAccepted(body.lastLine)
  }

  /** What the buffering parser asks beyond the grammar, its body limit included. */
  predicate Buffered(setup: Setup, body: CG.Body) {
    && ExtensionsParse(body) && TrailersParse(body.trailers) && |CG.TrailersText(body.trailers)| <= setup.maxHeader
    && |CG.Content(body.chunks)| <= setup.maxBody
  }

  function ParsedTrailers(trailers: seq<string>): (hs: seq<HeaderField>)
    requires TrailersParse(trailers)
    ensures |hs| == |trailers|
  {
    if trailers == [] then [] else [ParseHeaderLine(trailers[0]).value] + ParsedTrailers(trailers[1..])
  }

  // ---------------------------------------------------------------- single moves

  lemma LineAt(before: string, line: string, rest: string)
    requires Lacks(line, '\r')
    ensures var buffer := before + line + CRLF + rest;
            Find(buffer, CRLF, |before|) == Some(|before| + |line|) && buffer[|before|..|before| + |line|] == line
  {
    hide Find;
    FindLineEnd(before, line, rest);
    SliceKept(before + line, CRLF + rest, |before|);
    assert before + line + CRLF + rest == (before + line) + (CRLF + rest);
    assert (before + line)[|before|..] == line;
  }

  lemma SliceKept(s: string, more: string, from: nat)
    requires from <= |s|
    ensures (s + more)[from..|s|] == s[from..]
  {
  }

  lemma SizeMove(setup: Setup, before: string, line: string, rest: string, scan: Scan)
    requires scan.stage == AtSize && scan.position == |before| && Lacks(line, '\r') && CD.ChunkSize(line).Some?
    ensures var n := CD.ChunkSize(line).value;
            var next := scan.(position := |before + line + CRLF|);
            MoveOn(setup, before + line + CRLF + rest, scan) ==
              if !ExtensionAccepted(line) then Reject(InvalidChunkSize)
              else if n == 0 then Advance(next.(stage := AtTrailers, trailersStart := next.position, size := 0))
              else if |scan.body| + n > setup.maxBody then Reject(BodyTooLarge)
              else Advance(next.(stage := AtData, size := n))
  {
    hide Find, ExtensionAccepted, CD.ChunkSize;
    LineAt(before, line, rest);
  }

  lemma DataMove(setup: Setup, before: string, data: string, rest: string, scan: Scan)
    requires scan.stage == AtData && scan.position == |before| && scan.size == |data|
    requires |before + data + CRLF| <= SIZE_MAX
    ensures MoveOn(setup, before + data + CRLF + rest, scan) ==
            Advance(scan.(stage := AtSize, position := |before + data + CRLF|, body := scan.body + data))
  {
    var buffer, dataEnd := before + data + CRLF + rest, |before + data|;
    assert buffer[dataEnd..dataEnd + 2] == CRLF;
    assert buffer[scan.position..dataEnd] == data;
  }

  lemma TrailerMove(setup: Setup, before: string, line: string, rest: string, scan: Scan)
    requires scan.stage == AtTrailers && scan.trailersStart <= scan.position == |before|
    requires Lacks(line, '\r') && (line != "" ==> CD.TrailerAccepted(line))
    ensures MoveOn(setup, before + line + CRLF + rest, scan) ==
            if |before + line + CRLF| - scan.trailersStart > setup.maxHeader then Reject(HeaderTooLarge)
            else if line == "" then Finish(|before| + 2)
            else if ParseHeaderLine(line).Err? then Reject(InvalidTrailer)
            else Advance(scan.(position := |before + line + CRLF|, trailers := scan.trailers + [ParseHeaderLine(line).value]))
  {
    hide Find, Trim, CD.ForbiddenTrailer;
    LineAt(before, line, rest);
  }

  // ---------------------------------------------------------------- whole bodies

  /** The scanner finishes at `end` with these trailers, or refuses them. */
  ghost predicate TrailersScanned(setup: Setup, buffer: string, scan: Scan, trailers: seq<string>, end: nat)
    requires scan.position <= |buffer|
  {
    var (last, m) := Run(setup, buffer, scan);
    if TrailersParse(trailers) && end <= scan.trailersStart + setup.maxHeader
    then m == Finish(end) && last.body == scan.body && last.trailers == scan.trailers + ParsedTrailers(trailers)
    else m.Reject?
  }

  lemma {:induction false} TrailersRun(setup: Setup, limits: CD.Limits, before: string, trailers: seq<string>, rest: string,
                                       scan: Scan)
    requires scan.stage == AtTrailers && scan.trailersStart <= scan.position == |before|
    requires forall i | 0 <= i < |trailers| :: CG.TrailerWellFormed(limits, trailers[i])
    ensures TrailersScanned(setup, before + CG.TrailersText(trailers) + rest, scan, trailers,
                            |before + CG.TrailersText(trailers)|)
    decreases |trailers|
  {
    hide MoveOn, ParseHeaderLine, CD.TrailerAccepted, TrailersParse, TrailersScanned, Run;
    if trailers == [] {
      LastTrailer(setup, before, rest, scan);
    } else {
      var line, more := trailers[0], trailers[1..];
      var text, read := CG.TrailersText(more), before + line + CRLF;
      TrailersLayout(before, line, text, rest);
      TrailerMove(setup, before, line, text + rest, scan);
      if |read| - scan.trailersStart <= setup.maxHeader && ParseHeaderLine(line).Ok? {
        var next := scan.(position := |read|, trailers := scan.trailers + [ParseHeaderLine(line).value]);
        TrailersRun(setup, limits, read, more, rest, next);
        TrailersAdvance(setup, read + text + rest, scan, trailers, |read + text|);
      } else {
        TrailersRefused(setup, before + CG.TrailersText(trailers) + rest, scan, trailers, |before + CG.TrailersText(trailers)|);
      }
    }
  }

  lemma LastTrailer(setup: Setup, before: string, rest: string, scan: Scan)
    requires scan.stage == AtTrailers && scan.trailersStart <= scan.position == |before|
    ensures TrailersScanned(setup, before + CG.TrailersText([]) + rest, scan, [], |before + CG.TrailersText([])|)
  {
    hide MoveOn, ParseHeaderLine;
    assert before + "" + CRLF + rest == before + CG.TrailersText([]) + rest;
    TrailerMove(setup, before, "", rest, scan);
    assert scan.trailers + ParsedTrailers([]) == scan.trailers;
  }

  lemma TrailersAdvance(setup: Setup, buffer: string, scan: Scan, trailers: seq<string>, end: nat)
    requires trailers != [] && ParseHeaderLine(trailers[0]).Ok? && scan.position <= |buffer|
    requires var m := MoveOn(setup, buffer, scan);
             && m.Advance?
             && m.next == scan.(position := m.next.position, trailers := scan.trailers + [ParseHeaderLine(trailers[0]).value])
             && TrailersScanned(setup, buffer, m.next, trailers[1..], end)
    ensures TrailersScanned(setup, buffer, scan, trailers, end)
  {
    hide MoveOn, ParseHeaderLine, TrailersParse, Run, ParsedTrailers;
    RunStep(setup, buffer, scan);
    TrailersSplit(trailers);
    if TrailersParse(trailers) {
      ParsedSplit(scan.trailers, trailers);
    }
  }

  lemma ParsedSplit(before: seq<HeaderField>, trailers: seq<string>)
    requires trailers != [] && TrailersParse(trailers) && TrailersParse(trailers[1..])
    ensures before + ParsedTrailers(trailers) == before + [ParseHeaderLine(trailers[0]).value] + ParsedTrailers(trailers[1..])
  {
    hide ParseHeaderLine;
  }

  lemma TrailersRefused(setup: Setup, buffer: string, scan: Scan, trailers: seq<string>, end: nat)
    requires trailers != [] && scan.position <= |buffer| && MoveOn(setup, buffer, scan).Reject?
    requires ParseHeaderLine(trailers[0]).Err? || end > scan.trailersStart + setup.maxHeader
    ensures TrailersScanned(setup, buffer, scan, trailers, end)
  {
    hide MoveOn, ParseHeaderLine, TrailersParse, Run;
    RunStep(setup, buffer, scan);
    TrailersSplit(trailers);
  }

  lemma TrailersLayout(before: string, line: string, more: string, rest: string)
    ensures before + (line + CRLF + more) + rest == before + line + CRLF + (more + rest)
    ensures (before + line + CRLF) + more + rest == before + line + CRLF + (more + rest)
    ensures before + (line + CRLF + more) == (before + line + CRLF) + more
  {
  }

  lemma TrailersSplit(trailers: seq<string>)
    requires trailers != []
    ensures TrailersParse(trailers) <==> ParseHeaderLine(trailers[0]).Ok? && TrailersParse(trailers[1..])
  {
    hide ParseHeaderLine;
    assert trailers == [trailers[0]] + trailers[1..];
  }

  lemma ExtensionsSplit(body: CG.Body)
    requires body.chunks != []
    ensures ExtensionsParse(body) <==>
            ExtensionAccepted(body.chunks[0].sizeLine) && ExtensionsParse(body.(chunks := body.chunks[1..]))
  {
    hide ExtensionAccepted;
    assert body.chunks == [body.chunks[0]] + body.chunks[1..];
  }

  /** The scanner finishes at `end` with the content of `body`, or refuses it. */
  ghost predicate Scanned(setup: Setup, buffer: string, scan: Scan, body: CG.Body, end: nat)
    requires scan.position <= |buffer|
  {
    var (last, m) := Run(setup, buffer, scan);
    if ExtensionsParse(body) && TrailersParse(body.trailers) && |CG.TrailersText(body.trailers)| <= setup.maxHeader
       && |scan.body + CG.Content(body.chunks)| <= setup.maxBody
    then m == Finish(end) && last.body == scan.body + CG.Content(body.chunks)
         && last.trailers == scan.trailers + ParsedTrailers(body.trailers)
    else m.Reject?
  }

  lemma ChunkLayout(before: string, chunk: CG.Chunk, more: string, rest: string)
    ensures var buffer, read := before + (CG.ChunkText(chunk) + more) + rest, before + chunk.sizeLine + CRLF;
            && buffer == before + chunk.sizeLine + CRLF + (chunk.data + CRLF + (more + rest))
            && buffer == read + chunk.data + CRLF + (more + rest)
            && buffer == (read + chunk.data + CRLF) + more + rest
            && before + (CG.ChunkText(chunk) + more) == read + chunk.data + CRLF + more
  {
  }

  /** What the scanner makes of a body of the grammar, wherever it lies in the buffer. */
  lemma {:induction false} BodyRun(setup: Setup, limits: CD.Limits, before: string, body: CG.Body, rest: string, scan: Scan)
    requires scan.stage == AtSize && scan.position == |before| && |scan.body| <= setup.maxBody
    requires CG.WellFormed(limits, body) && |before + CG.BodyText(body)| <= SIZE_MAX
    ensures Scanned(setup, before + CG.BodyText(body) + rest, scan, body, |before + CG.BodyText(body)|)
    decreases |body.chunks|
  {
    hide MoveOn, ExtensionAccepted, CD.ChunkSize, CG.TrailerWellFormed, TrailersParse;
    if body.chunks == [] {
      var after := CG.TrailersText(body.trailers) + rest;
      SizeMove(setup, before, body.lastLine, after, scan);
      var read := before + body.lastLine + CRLF;
      assert before + CG.BodyText(body) + rest == read + after;
      assert read + after == read + CG.TrailersText(body.trailers) + rest;
      if ExtensionAccepted(body.lastLine) {
        TrailersRun(setup, limits, read, body.trailers, rest,
                    scan.(stage := AtTrailers, position := |read|, trailersStart := |read|, size := 0));
        assert scan.body + "" == scan.body;
      }
    } else {
      ChunkRun(setup, limits, before, body, rest, scan);
    }
  }

  lemma {:induction false} ChunkRun(setup: Setup, limits: CD.Limits, before: string, body: CG.Body, rest: string, scan: Scan)
    requires scan.stage == AtSize && scan.position == |before| && |scan.body| <= setup.maxBody && body.chunks != []
    requires CG.WellFormed(limits, body) && |before + CG.BodyText(body)| <= SIZE_MAX
    ensures Scanned(setup, before + CG.BodyText(body) + rest, scan, body, |before + CG.BodyText(body)|)
    decreases |body.chunks|, 0
  {
    hide MoveOn, ExtensionAccepted, CD.ChunkSize, CG.TrailerWellFormed, TrailersParse, ExtensionsParse, CG.TrailersText;
    hide CG.ChunkText, Run;
    var chunk, more := body.chunks[0], body.(chunks := body.chunks[1..]);
    var data, text := chunk.data, CG.BodyText(more);
    var buffer := before + CG.BodyText(body) + rest;
    ExtensionsSplit(body);
    ChunkLayout(before, chunk, text, rest);
    var read := before + chunk.sizeLine + CRLF;
    SizeMove(setup, before, chunk.sizeLine, data + CRLF + (text + rest), scan);
    RunStep(setup, buffer, scan);
    if ExtensionAccepted(chunk.sizeLine) && |scan.body| + |data| <= setup.maxBody {
      var atData := scan.(stage := AtData, position := |read|, size := |data|);
      DataMove(setup, read, data, text + rest, atData);
      RunStep(setup, buffer, atData);
      var passed := read + data + CRLF;
      assert forall i | 0 <= i < |more.chunks| :: more.chunks[i] == body.chunks[i + 1];
      BodyRun(setup, limits, passed, more, rest, atData.(stage := AtSize, position := |passed|, body := scan.body + data));
      assert scan.body + data + CG.Content(more.chunks) == scan.body + CG.Content(body.chunks);
    }
  }

  /** For every chunked body of the grammar, in a response whose head announces one: the buffering
  parser is done on its last octet, with its content as the body, if and only if every extension
  and trailer line parses and the trailer block and the content are within the limits. Otherwise
  it refuses the response. */
  lemma BufferingExactness(setup: Setup, limits: CD.Limits, buffer: string, head: Head, body: CG.Body, rest: string)
    requires HasHead(setup, buffer, head) && head.mode == Chunked && head.headerBytes <= |buffer|
    requires CG.WellFormed(limits, body) && buffer[head.headerBytes..] == CG.BodyText(body) + rest
    requires |buffer| - |rest| <= SIZE_MAX
    ensures if Buffered(setup, body)
            then Parse(setup, buffer) ==
                 Complete(head, CG.Content(body.chunks), ParsedTrailers(body.trailers), |buffer| - |rest|)
            else Parse(setup, buffer).Failed?
  {
    hide CG.WellFormed, CG.BodyText, CG.Content, CG.TrailersText, HasHead, Parse, Run, TrailersParse, ExtensionsParse;
    hide ParsedTrailers;
    ParseWithHead(setup, buffer, head);
    var before, text, content := buffer[..head.headerBytes], CG.BodyText(body), CG.Content(body.chunks);
    assert buffer == before + text + rest;
    BodyRun(setup, limits, before, body, rest, StartScan(head.headerBytes));
    assert "" + content == content;
    if TrailersParse(body.trailers) {
      NoneBefore(ParsedTrailers(body.trailers));
    }
  }

  lemma NoneBefore(hs: seq<HeaderField>)
    ensures [] + hs == hs
  {
  }

  /** A body of the grammar that the buffering parser accepts. */
  ghost predicate BufferedText(setup: Setup, limits: CD.Limits, text: string) {
    exists body :: CG.WellFormed(limits, body) && text == CG.BodyText(body) && Buffered(setup, body)
  }

  /** The same, with what it decodes to. */
  ghost predicate BufferedAs(setup: Setup, limits: CD.Limits, text: string, content: string) {
    exists body :: CG.WellFormed(limits, body) && text == CG.BodyText(body) && Buffered(setup, body)
                   && content == CG.Content(body.chunks)
  }

  /** Where the streaming decoder is done, the buffering parser is done with the decoded content
  exactly under its own conditions, and otherwise refuses the response. */
  lemma DoneTogether(setup: Setup, limits: CD.Limits, buffer: string, head: Head, end: nat)
    requires HasHead(setup, buffer, head) && head.mode == Chunked && head.headerBytes <= end <= |buffer| && end <= SIZE_MAX
    requires CD.Feed(limits, CD.INITIAL, buffer[head.headerBytes..end]).phase == CD.Complete
    ensures var p, text := Parse(setup, buffer), buffer[head.headerBytes..end];
            if BufferedText(setup, limits, text)
            then p.Complete? && p.head == head && p.messageBytes == end && BufferedAs(setup, limits, text, p.body)
            else p.Failed?
  {
    hide CG.WellFormed, CG.BodyText, CG.Content, HasHead, Parse, Run, Buffered, CD.Feed;
    var text, rest := buffer[head.headerBytes..end], buffer[end..];
    assert buffer[head.headerBytes..] == text + rest;
    var body: CG.Body;
    if BufferedText(setup, limits, text) {
      body :| CG.WellFormed(limits, body) && text == CG.BodyText(body) && Buffered(setup, body);
    } else {
      body := CG.BodyOf(limits, CD.INITIAL, text);
    }
    BufferingExactness(setup, limits, buffer, head, body, rest);
  }
}
