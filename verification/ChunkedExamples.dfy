/** Two chunked responses on which the parts of the proxy disagree with one another. */
module ChunkedExamples {
  import opened Text
  import opened HeaderFields
  import opened MessageText
  import opened ResponseParsing
  import CD = ChunkedDecoder
  import CG = ChunkGrammar
  import CB = ChunkBuffering
  import RF = ResponseFragmentation

  const STATUS_LINE: string := "HTTP/1.1 200 OK"

  const FIELDS: seq<HeaderField> := [HeaderField("Transfer-Encoding", "chunked")]

  /** The head of a response with a chunked body. */
  const HEAD: string := HeadText(STATUS_LINE, FIELDS)

  const PARSED: Head := Head(StatusLine("HTTP/1.1", 200, "OK"), FIELDS, |HEAD|, Chunked)

  predicate Admits(setup: Setup) { ValidSetup(setup) && !EqualsIgnoreCase(setup.verb, "HEAD") && |HEAD| <= setup.maxHeader }

  lemma StatusLineReads()
    ensures ParseStatusLine(STATUS_LINE) == Ok(PARSED.line) && Lacks(STATUS_LINE, '\r')
  {
    hide Find, AllFieldValue;
    StatusLineOctets();
    FindSeparator("", "HTTP/1.1", "200 OK", ' ');
  }

  lemma StatusLineOctets()
    ensures STATUS_LINE == "" + "HTTP/1.1" + [' '] + "200 OK" && Lacks(STATUS_LINE, '\r') && AllFieldValue("OK")
    ensures |STATUS_LINE| == 15 && STATUS_LINE[..8] == "HTTP/1.1" && STATUS_LINE[13..] == "OK"
    ensures STATUS_LINE[9] == '2' && STATUS_LINE[10] == '0' && STATUS_LINE[11] == '0' && STATUS_LINE[12] == ' '
  {
  }

  lemma FieldsFrame()
    ensures NoteHeaders(Framing(None, false), FIELDS) == Ok(Framing(None, true))
  {
    hide SizeOf, Lower;
    LowerNames();
    assert |"content-length"| == 14 && |"transfer-encoding"| == 17;
    assert FIELDS[1..] == [];
  }

  lemma HeadReads(setup: Setup, body: string)
    requires Admits(setup)
    ensures HasHead(setup, HEAD + body, PARSED)
  {
    hide Find, ParseStatusLine, ParseBlock, NoteHeaders, HeadText, Lower;
    StatusLineReads();
    FieldsFrame();
    FixedValues();
    PrintedHead(STATUS_LINE, FIELDS, body);
    StartsWith(STATUS_LINE, FIELDS, body);
  }

  // ---------------------------------------------------------------- a long size line

  lemma LastChunkOfZeros(maxLine: nat, n: nat)
    requires 0 < n <= maxLine
    ensures CG.LineFits(CD.Limits(0, maxLine), Zeros(n)) && CD.ChunkSize(Zeros(n)) == Some(0)
    ensures ExtensionAccepted(Zeros(n))
  {
    var line := Zeros(n);
    RF.ZerosAreZero(n);
    forall k ensures !At(line, ";", k) {
      AtFirst(line, ";", k);
    }
  }

  lemma ZerosAccepted(setup: Setup)
    requires Admits(setup) && |HEAD| + setup.maxHeader + 4 <= SIZE_MAX
    ensures var whole := HEAD + Zeros(setup.maxHeader) + CRLF_CRLF;
            Parse(setup, whole) == Complete(PARSED, "", [], |whole|)
  {
    hide HasHead, Parse, Run, CG.WellFormed, CG.BodyText, CG.Content, CG.TrailersText, CB.Buffered;
    var line := Zeros(setup.maxHeader);
    var whole := HEAD + line + CRLF_CRLF;
    ZerosBody(setup);
    HeadReads(setup, line + CRLF_CRLF);
    assert whole == HEAD + (line + CRLF_CRLF) && whole[|HEAD|..] == line + CRLF_CRLF + "";
    CB.BufferingExactness(setup, CD.Limits(0, setup.maxHeader), whole, PARSED, ZEROS(setup.maxHeader), "");
  }

  lemma ZerosCut(setup: Setup)
    requires Admits(setup)
    ensures Parse(setup, HEAD + Zeros(setup.maxHeader)) == Failed(InvalidChunkSize)
  {
    hide HasHead, Parse, MoveOn;
    var cut, start := HEAD + Zeros(setup.maxHeader), StartScan(|HEAD|);
    HeadReads(setup, Zeros(setup.maxHeader));
    ParseWithHead(setup, cut, PARSED);
    RF.ZerosRefused(setup, HEAD, start, "");
    RunStep(setup, cut, start);
  }

  /** One response with an empty body, its last-chunk line as many zeros as the header limit:
  accepted in one call, and refused in two, the first of which ends before that line's CRLF. */
  lemma LongSizeLineExample(setup: Setup)
    requires Admits(setup) && |HEAD| + |CRLF_CRLF| <= setup.maxBody
    ensures var cut := HEAD + Zeros(setup.maxHeader);
            && Consumed(setup, INITIAL, cut + CRLF_CRLF).progress == Complete(PARSED, "", [], |cut + CRLF_CRLF|)
            && RF.ConsumedAll(setup, [cut, CRLF_CRLF]).progress == Failed(InvalidChunkSize)
  {
    hide Parse;
    var cut := HEAD + Zeros(setup.maxHeader);
    ZerosAccepted(setup);
    ZerosCut(setup);
    assert "" + cut == cut && "" + (cut + CRLF_CRLF) == cut + CRLF_CRLF;
    var two := [cut, CRLF_CRLF];
    assert two[..1] == [cut] && two[..1][..0] == [];
    assert RF.ConsumedAll(setup, [cut]) == Consumed(setup, INITIAL, cut);
  }

  function ZEROS(n: nat): CG.Body { CG.Body([], Zeros(n), []) }

  lemma ZerosBody(setup: Setup)
    requires setup.maxHeader > 1
    ensures var body := ZEROS(setup.maxHeader);
            && CG.WellFormed(CD.Limits(0, setup.maxHeader), body) && CB.Buffered(setup, body)
            && CG.BodyText(body) == Zeros(setup.maxHeader) + CRLF_CRLF && CG.Content(body.chunks) == ""
            && CB.ParsedTrailers(body.trailers) == []
  {
    hide CD.ChunkSize, ExtensionAccepted;
    LastChunkOfZeros(setup.maxHeader, setup.maxHeader);
  }

  // ---------------------------------------------------------------- a control octet in an extension

  const CONTROL: char := 1 as char

  /** One chunk of one octet, with a control octet after the semicolon of its size line. */
  const ODD: CG.Body := CG.Body([CG.Chunk("1;" + [CONTROL], "x")], "0", [])

  lemma OddIsWellFormed(limits: CD.Limits)
    requires limits.maxLine >= 3
    ensures CG.WellFormed(limits, ODD) && !CB.ExtensionsParse(ODD) && |CG.Content(ODD.chunks)| == 1
  {
    hide ExtensionAccepted, CD.ChunkSize;
    OddLine();
    LastLine();
    assert ODD.chunks[1..] == [] && ODD.chunks[0].sizeLine == "1;" + [CONTROL];
  }

  lemma OddLine()
    ensures var line := "1;" + [CONTROL];
            && |line| == 3 && Lacks(line, '\r') && Lacks(line, '\n')
            && CD.ChunkSize(line) == Some(1) && !ExtensionAccepted(line)
  {
    hide Find, SizeOf;
    var line := "1;" + [CONTROL];
    assert line == "" + "1" + [';'] + [CONTROL];
    FindSeparator("", "1", [CONTROL], ';');
    assert line[..1] == "1" && line[2..] == [CONTROL] && line[2..][0] == CONTROL;
    OneDigit();
  }

  lemma LastLine()
    ensures Lacks("0", '\r') && Lacks("0", '\n') && CD.ChunkSize("0") == Some(0)
  {
    hide Find, SizeOf;
    assert "0" == "" + "0";
    FindNoSeparator("", "0", ';');
    OneDigit();
  }

  lemma OneDigit()
    ensures SizeOf(16, "1") == Some(1) && SizeOf(16, "0") == Some(0)
  {
    assert "1"[..0] == "" && "0"[..0] == "";
  }

  /** The streaming decoder is done with this body, and the buffering parser refuses it. */
  lemma ControlOctetRefused(setup: Setup, limits: CD.Limits)
    requires Admits(setup) && |HEAD| + |CG.BodyText(ODD)| <= SIZE_MAX && limits.maxLine >= 3 && limits.maxBody >= 1
    ensures CD.Feed(limits, CD.INITIAL, CG.BodyText(ODD)) == CD.INITIAL.(phase := CD.Complete, decoded := 1)
    ensures Parse(setup, HEAD + CG.BodyText(ODD)).Failed?
  {
    hide HasHead, Parse, CG.WellFormed, CG.BodyText, CB.ExtensionsParse, CD.Feed;
    OddIsWellFormed(limits);
    CG.FeedBody(limits, CD.INITIAL, ODD);
    HeadReads(setup, CG.BodyText(ODD));
    var buffer := HEAD + CG.BodyText(ODD);
    assert buffer[|HEAD|..] == CG.BodyText(ODD) + "";
    CB.BufferingExactness(setup, limits, buffer, PARSED, ODD, "");
  }
}
