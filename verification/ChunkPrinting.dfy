/** Chunked bodies as a sender prints them: both decoders take exactly the data. */
module ChunkPrinting {
  import opened Text
  import opened ResponseParsing
  import CD = ChunkedDecoder
  import CG = ChunkGrammar
  import CB = ChunkBuffering

  /** One piece of data with its length in hexadecimal. */
  function PrintedChunk(data: string, upper: bool): string {
    Hexadecimal(|data|, upper) + CRLF + data + CRLF
  }

  /** The pieces one after the other, the last chunk, and no trailers. */
  function PrintedBody(pieces: seq<string>, upper: bool): string {
    if pieces == [] then "0" + CRLF + CRLF else PrintedChunk(pieces[0], upper) + PrintedBody(pieces[1..], upper)
  }

  function Joined(pieces: seq<string>): string {
    if pieces == [] then "" else pieces[0] + Joined(pieces[1..])
  }

  /** No piece is empty or too long to be announced. */
  predicate Announceable(limits: CD.Limits, pieces: seq<string>, upper: bool) {
    forall i | 0 <= i < |pieces| ::
      0 < |pieces[i]| <= SIZE_MAX && |Hexadecimal(|pieces[i]|, upper)| <= limits.maxLine
  }

  function ChunksOf(pieces: seq<string>, upper: bool): seq<CG.Chunk> {
    seq(|pieces|, i requires 0 <= i < |pieces| => CG.Chunk(Hexadecimal(|pieces[i]|, upper), pieces[i]))
  }

  function BodyOf(pieces: seq<string>, upper: bool): CG.Body { CG.Body(ChunksOf(pieces, upper), "0", []) }

  lemma NumeralIsLine(line: string)
    requires AllDigits(16, line)
    ensures Lacks(line, '\r') && Lacks(line, '\n') && CD.SizeText(line) == line && ExtensionAccepted(line)
  {
    forall i | 0 <= i < |line| ensures line[i] != '\r' && line[i] != '\n' && line[i] != ';' {
      assert DigitOf(16, line[i]).Some?;
    }
    assert "" + line == line;
    FindNoSeparator("", line, ';');
  }

  lemma PrintedLine(n: nat, upper: bool)
    requires n <= SIZE_MAX
    ensures var line := Hexadecimal(n, upper);
            && Lacks(line, '\r') && Lacks(line, '\n') && CD.ChunkSize(line) == Some(n) && ExtensionAccepted(line)
  {
    hide Hexadecimal, CD.SizeText, ExtensionAccepted, SizeOf;
    HexadecimalRoundTrip(n, upper);
    NumeralIsLine(Hexadecimal(n, upper));
  }

  lemma {:induction false} PrintedIsBody(pieces: seq<string>, upper: bool)
    ensures PrintedBody(pieces, upper) == CG.BodyText(BodyOf(pieces, upper))
    ensures Joined(pieces) == CG.Content(ChunksOf(pieces, upper))
    decreases |pieces|
  {
    hide Hexadecimal;
    if pieces != [] {
      PrintedIsBody(pieces[1..], upper);
      assert ChunksOf(pieces, upper)[1..] == ChunksOf(pieces[1..], upper);
    }
  }

  lemma PrintedIsWellFormed(limits: CD.Limits, pieces: seq<string>, upper: bool)
    requires Announceable(limits, pieces, upper) && limits.maxLine > 0
    ensures CG.WellFormed(limits, BodyOf(pieces, upper)) && CB.ExtensionsParse(BodyOf(pieces, upper))
  {
    hide Hexadecimal, CD.ChunkSize, ExtensionAccepted;
    forall i | 0 <= i < |pieces|
      ensures CG.ChunkWellFormed(limits, ChunksOf(pieces, upper)[i])
      ensures ExtensionAccepted(ChunksOf(pieces, upper)[i].sizeLine)
    {
      PrintedLine(|pieces[i]|, upper);
    }
    ZeroLine();
    PrintedLine(0, upper);
  }

  lemma ZeroLine()
    ensures Hexadecimal(0, false) == "0" == Hexadecimal(0, true)
  {
  }

  /** Data cut into pieces of any sizes and printed with hexadecimal lengths, in either case: the
  streaming decoder is done on the last octet, having counted exactly the data. */
  lemma PrintedIsDecoded(limits: CD.Limits, pieces: seq<string>, upper: bool)
    requires Announceable(limits, pieces, upper) && limits.maxLine > 0 && |Joined(pieces)| <= limits.maxBody
    ensures CD.Feed(limits, CD.INITIAL, PrintedBody(pieces, upper)) ==
            CD.INITIAL.(phase := CD.Complete, decoded := |Joined(pieces)|)
  {
    hide CD.Feed, CG.WellFormed, PrintedBody, Joined, CG.Content, CG.BodyText;
    PrintedIsBody(pieces, upper);
    PrintedIsWellFormed(limits, pieces, upper);
    CG.FeedBody(limits, CD.INITIAL, BodyOf(pieces, upper));
  }

  /** And the buffering parser is done there, with exactly the data as its body, whatever follows. */
  lemma PrintedIsParsed(setup: Setup, buffer: string, head: Head, pieces: seq<string>, upper: bool, rest: string)
    requires HasHead(setup, buffer, head) && head.mode == Chunked && head.headerBytes <= |buffer|
    requires buffer[head.headerBytes..] == PrintedBody(pieces, upper) + rest && |buffer| - |rest| <= SIZE_MAX
    requires 2 <= setup.maxHeader && |Joined(pieces)| <= setup.maxBody
    requires forall i | 0 <= i < |pieces| :: 0 < |pieces[i]| <= SIZE_MAX
    ensures Parse(setup, buffer) == Complete(head, Joined(pieces), [], |buffer| - |rest|)
  {
    hide HasHead, Parse, CG.WellFormed, PrintedBody, Joined, CG.Content, CG.BodyText, CB.ExtensionsParse, Hexadecimal;
    var limits := CD.Limits(setup.maxBody, LongestLine(pieces, upper));
    PrintedIsBody(pieces, upper);
    PrintedIsWellFormed(limits, pieces, upper);
    CB.BufferingExactness(setup, limits, buffer, head, BodyOf(pieces, upper), rest);
  }

  function LongestLine(pieces: seq<string>, upper: bool): (n: nat)
    ensures n > 0 && forall i | 0 <= i < |pieces| :: |Hexadecimal(|pieces[i]|, upper)| <= n
  {
    if pieces == [] then 1
    else
      var first, more := |Hexadecimal(|pieces[0]|, upper)|, LongestLine(pieces[1..], upper);
      assert forall i | 1 <= i < |pieces| :: pieces[i] == pieces[1..][i - 1];
      if first > more then first else more
  }
}
