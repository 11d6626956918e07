/** Feeding a response in pieces gives what feeding it at once gives. */
module ResponseFragmentation {
  import opened Text
  import opened HeaderFields
  import opened ResponseParsing
  import ChunkedDecoder

  // ---------------------------------------------------------------- the scanner and more input

  lemma MoveAppend(setup: Setup, buffer: string, more: string, scan: Scan)
    requires scan.position <= |buffer| && MoveOn(setup, buffer, scan).Advance?
    ensures MoveOn(setup, buffer + more, scan) == MoveOn(setup, buffer, scan)
  {
    hide Find, ParseHeaderLine;
    if scan.stage == AtData {
      var dataEnd := scan.position + scan.size;
      assert (buffer + more)[dataEnd..dataEnd + 2] == buffer[dataEnd..dataEnd + 2];
      assert (buffer + more)[scan.position..dataEnd] == buffer[scan.position..dataEnd];
    } else {
      FindAppend(buffer, more, CRLF, scan.position);
      var lineEnd := Find(buffer, CRLF, scan.position).value;
      assert (buffer + more)[scan.position..lineEnd] == buffer[scan.position..lineEnd];
    }
  }

  /** Scanning more input from the start passes through the place where the scanner stopped. */
  lemma {:induction false} RunAppend(setup: Setup, buffer: string, more: string, scan: Scan)
    requires scan.position <= |buffer|
    ensures Run(setup, buffer + more, scan) == Run(setup, buffer + more, Run(setup, buffer, scan).0)
    decreases |buffer| - scan.position
  {
    hide MoveOn;
    var m := MoveOn(setup, buffer, scan);
    if m.Advance? {
      MoveAppend(setup, buffer, more, scan);
      RunAppend(setup, buffer, more, m.next);
    }
  }

  /** Input cut after a finishing scan still finishes there. */
  lemma {:induction false} RunPrefix(setup: Setup, buffer: string, more: string, scan: Scan)
    requires scan.position <= |buffer + more|
    requires Run(setup, buffer + more, scan).1 == Finish(|buffer|)
    ensures scan.position <= |buffer| && Run(setup, buffer, scan) == Run(setup, buffer + more, scan)
    decreases |buffer + more| - scan.position
  {
    hide MoveOn;
    var whole := buffer + more;
    var m := MoveOn(setup, whole, scan);
    if m.Advance? {
      RunPrefix(setup, buffer, more, m.next);
      MovePrefix(setup, buffer, more, scan);
    } else {
      FinishPrefix(setup, buffer, more, scan);
    }
  }

  lemma MovePrefix(setup: Setup, buffer: string, more: string, scan: Scan)
    requires scan.position <= |buffer|
    requires var m := MoveOn(setup, buffer + more, scan); m.Advance? && m.next.position <= |buffer|
    ensures MoveOn(setup, buffer, scan) == MoveOn(setup, buffer + more, scan)
  {
    hide Find, ParseHeaderLine;
    var whole := buffer + more;
    if scan.stage == AtData {
      var dataEnd := scan.position + scan.size;
      assert whole[dataEnd..dataEnd + 2] == buffer[dataEnd..dataEnd + 2];
      assert whole[scan.position..dataEnd] == buffer[scan.position..dataEnd];
    } else {
      FindPrefix(buffer, more, CRLF, scan.position);
      var lineEnd := Find(whole, CRLF, scan.position).value;
      assert whole[scan.position..lineEnd] == buffer[scan.position..lineEnd];
    }
  }

  lemma FinishPrefix(setup: Setup, buffer: string, more: string, scan: Scan)
    requires scan.position <= |buffer + more|
    requires MoveOn(setup, buffer + more, scan) == Finish(|buffer|)
    ensures scan.position <= |buffer| && MoveOn(setup, buffer, scan) == Finish(|buffer|)
  {
    hide Find, ParseHeaderLine;
    FindPrefix(buffer, more, CRLF, scan.position);
  }

  /** The chunk-size lines a scan passes, CRLF included, fit the header limit. The parser checks
  this only while a line is still without its CRLF. */
  predicate SizeLinesFit(setup: Setup, buffer: string, scan: Scan)
    requires scan.position <= |buffer|
    decreases |buffer| - scan.position
  {
    var m := MoveOn(setup, buffer, scan);
    m.Advance? ==>
      && (scan.stage == AtSize ==> m.next.position - scan.position <= setup.maxHeader)
      && SizeLinesFit(setup, buffer, m.next)
  }

  /** A move that needs octets beyond the cut makes the scanner wait at the cut. */
  lemma MoveWaits(setup: Setup, buffer: string, more: string, scan: Scan)
    requires scan.position <= |buffer| && !MoveOn(setup, buffer + more, scan).Reject?
    requires var m := MoveOn(setup, buffer + more, scan);
             && (m.Advance? ==> m.next.position > |buffer|)
             && (m.Advance? && scan.stage == AtSize ==> m.next.position - scan.position <= setup.maxHeader)
             && (m.Finish? ==> m.messageBytes > |buffer|)
    ensures MoveOn(setup, buffer, scan) == Wait
  {
    hide Find, ParseHeaderLine;
    if scan.stage != AtData && Find(buffer, CRLF, scan.position).Some? {
      FindAppend(buffer, more, CRLF, scan.position);
    }
  }

  /** Cutting a scan that is not refused, before its end, leaves the scanner waiting. */
  lemma {:induction false} RunCut(setup: Setup, buffer: string, more: string, scan: Scan)
    requires scan.position <= |buffer| && more != ""
    requires var r := Run(setup, buffer + more, scan).1; r == Wait || r == Finish(|buffer + more|)
    requires SizeLinesFit(setup, buffer + more, scan)
    ensures Run(setup, buffer, scan).1 == Wait
    decreases |buffer| - scan.position
  {
    hide MoveOn;
    var m := MoveOn(setup, buffer + more, scan);
    if m.Advance? && m.next.position <= |buffer| {
      MovePrefix(setup, buffer, more, scan);
      RunCut(setup, buffer, more, m.next);
    } else {
      MoveWaits(setup, buffer, more, scan);
    }
  }

  // ---------------------------------------------------------------- the message and more input

  ghost predicate ChunkSizeLinesFit(setup: Setup, buffer: string) {
    var p := Parse(setup, buffer);
    (p.AwaitingBody? || p.Complete?) && p.head.mode == Chunked && p.head.headerBytes <= |buffer| ==>
      SizeLinesFit(setup, buffer, StartScan(p.head.headerBytes))
  }

  /** Every strict prefix of one response, or of an unfinished one, needs more data. */
  lemma StrictPrefixWaits(setup: Setup, buffer: string, more: string)
    requires more != "" && !Parse(setup, buffer + more).Failed? && ChunkSizeLinesFit(setup, buffer + more)
    requires var p := Parse(setup, buffer + more); p.Complete? ==> p.messageBytes == |buffer + more|
    ensures Unfinished(Parse(setup, buffer))
  {
    hide Find, ParseStatusLine, ParseHead, Run, SizeLinesFit;
    var whole := buffer + more;
    var p := Parse(setup, whole);
    HeadOf(setup, whole);
    if p.AwaitingHead? {
      PrefixOfHead(setup, buffer, more);
    } else {
      var head := p.head;
      ParseWithHead(setup, whole, head);
      if |buffer| < head.headerBytes {
        HeadNotYet(setup, buffer, more, head);
      } else {
        HeadPrefix(setup, buffer, more, head);
        ParseWithHead(setup, buffer, head);
        if head.mode == Chunked {
          RunCut(setup, buffer, more, StartScan(head.headerBytes));
        }
      }
    }
  }

  lemma PrefixOfHead(setup: Setup, buffer: string, more: string)
    requires Parse(setup, buffer + more) == AwaitingHead
    ensures Parse(setup, buffer) == AwaitingHead
  {
    hide Find, ParseStatusLine, ParseHead, WithBody;
    var whole := buffer + more;
    if Find(whole, CRLF_CRLF, 0).Some? {
      WithBodyIsPastHead(setup, whole);
    }
    if Find(buffer, CRLF_CRLF, 0).Some? {
      FindAppend(buffer, more, CRLF_CRLF, 0);
    }
    if Find(buffer, CRLF, 0).Some? {
      FindAppend(buffer, more, CRLF, 0);
      assert whole[..Find(buffer, CRLF, 0).value] == buffer[..Find(buffer, CRLF, 0).value];
    }
    if Find(whole, CRLF, 0).None? {
      NoLineNoBlankLine(whole);
    }
  }

  lemma WithBodyIsPastHead(setup: Setup, buffer: string)
    requires Find(buffer, CRLF_CRLF, 0).Some?
    ensures !Parse(setup, buffer).AwaitingHead?
  {
    hide Find, ParseStatusLine, ParseHead, Run;
    if Find(buffer, CRLF, 0).None? {
      NoLineNoBlankLine(buffer);
    }
  }

  /** A complete response followed by anything is complete at the same place. */
  lemma CutAtEnd(setup: Setup, buffer: string, more: string)
    requires Parse(setup, buffer + more).Complete? && Parse(setup, buffer + more).messageBytes == |buffer|
    ensures Parse(setup, buffer) == Parse(setup, buffer + more)
  {
    hide Find, ParseStatusLine, ParseHead, Run;
    var whole := buffer + more;
    HeadOf(setup, whole);
    var head := Parse(setup, whole).head;
    ParseWithHead(setup, whole, head);
    if head.mode == Chunked {
      var start := StartScan(head.headerBytes);
      RunPrefix(setup, buffer, more, start);
    }
    HeadPrefix(setup, buffer, more, head);
    ParseWithHead(setup, buffer, head);
    if head.mode.ContentLength? {
      assert whole[head.headerBytes..|buffer|] == buffer[head.headerBytes..|buffer|];
    }
  }

  // ---------------------------------------------------------------- feeding in pieces

  function ConsumedAll(setup: Setup, fragments: seq<string>): State {
    if fragments == [] then INITIAL
    else Consumed(setup, ConsumedAll(setup, fragments[..|fragments| - 1]), fragments[|fragments| - 1])
  }

  lemma {:induction false} FlattenPrefix(fragments: seq<string>, n: nat)
    requires n <= |fragments|
    ensures Flatten(fragments[..n]) <= Flatten(fragments)
    decreases |fragments| - n
  {
    if n == |fragments| {
      assert fragments[..n] == fragments;
    } else {
      assert fragments[..n + 1][..n] == fragments[..n];
      FlattenPrefix(fragments, n + 1);
    }
  }

  /** While nothing is refused or complete, the fed parser holds one-call parsing of its input. */
  lemma {:induction false} UnfinishedRun(setup: Setup, fragments: seq<string>)
    requires fragments != [] && Unfinished(ConsumedAll(setup, fragments).progress)
    ensures ConsumedAll(setup, fragments) == Consumed(setup, INITIAL, Flatten(fragments))
    decreases |fragments|
  {
    hide Parse;
    var n := |fragments| - 1;
    if n > 0 {
      UnfinishedRun(setup, fragments[..n]);
      assert "" + Flatten(fragments[..n]) == Flatten(fragments[..n]);
      assert "" + Flatten(fragments) == Flatten(fragments);
    } else {
      assert fragments[..0] == [];
      assert "" + fragments[0] == fragments[0];
    }
  }

  /** One response, accepted in one call and using up its input (or still unfinished), with size
  lines within the limit: every division into fragments ends in the same state, and before the
  last octet the parser asks for more. */
  lemma {:induction false} FragmentationIndependence(setup: Setup, fragments: seq<string>)
    requires fragments != []
    requires var once := Consumed(setup, INITIAL, Flatten(fragments));
             && !once.progress.Failed?
             && (once.progress.Complete? ==> once.progress.messageBytes == |once.buffer|)
             && ChunkSizeLinesFit(setup, Flatten(fragments))
    ensures ConsumedAll(setup, fragments) == Consumed(setup, INITIAL, Flatten(fragments))
    ensures forall n | 0 < n < |fragments| && Flatten(fragments[..n]) != Flatten(fragments) ::
              Unfinished(ConsumedAll(setup, fragments[..n]).progress)
  {
    FragmentationAgrees(setup, fragments, |fragments|);
    forall n | 0 < n < |fragments| && Flatten(fragments[..n]) != Flatten(fragments)
      ensures Unfinished(ConsumedAll(setup, fragments[..n]).progress)
    {
      FragmentationAgrees(setup, fragments, n);
      PrefixOfWhole(setup, fragments, n);
      assert "" + Flatten(fragments[..n]) == Flatten(fragments[..n]);
    }
    assert fragments[..|fragments|] == fragments;
  }

  lemma PrefixOfWhole(setup: Setup, fragments: seq<string>, n: nat)
    requires 0 < n <= |fragments|
    requires var once := Consumed(setup, INITIAL, Flatten(fragments));
             && !once.progress.Failed?
             && (once.progress.Complete? ==> once.progress.messageBytes == |once.buffer|)
             && ChunkSizeLinesFit(setup, Flatten(fragments))
    ensures Flatten(fragments[..n]) != Flatten(fragments) ==> Unfinished(Parse(setup, Flatten(fragments[..n])))
    ensures |Flatten(fragments[..n])| <= |Flatten(fragments)|
    ensures Flatten(fragments) != "" ==> |Flatten(fragments)| <= setup.maxHeader + setup.maxBody
  {
    hide Parse, ChunkSizeLinesFit;
    var whole, part := Flatten(fragments), Flatten(fragments[..n]);
    assert "" + whole == whole;
    FlattenPrefix(fragments, n);
    if part != whole {
      assert whole == part + whole[|part|..];
      StrictPrefixWaits(setup, part, whole[|part|..]);
    }
  }

  lemma {:induction false} FragmentationAgrees(setup: Setup, fragments: seq<string>, n: nat)
    requires 0 < n <= |fragments|
    requires var once := Consumed(setup, INITIAL, Flatten(fragments));
             && !once.progress.Failed?
             && (once.progress.Complete? ==> once.progress.messageBytes == |once.buffer|)
             && ChunkSizeLinesFit(setup, Flatten(fragments))
    ensures ConsumedAll(setup, fragments[..n]) == Consumed(setup, INITIAL, Flatten(fragments[..n]))
    decreases n
  {
    hide Parse, ChunkSizeLinesFit;
    var part := Flatten(fragments[..n]);
    assert fragments[..n][..n - 1] == fragments[..n - 1];
    var last := fragments[n - 1];
    assert "" + part == part;
    if n == 1 {
      assert fragments[..1] == [last] && fragments[..0] == [];
      assert [last][..0] == [] && Flatten([]) == "" && "" + last == last;
    } else {
      FragmentationAgrees(setup, fragments, n - 1);
      PrefixOfWhole(setup, fragments, n - 1);
      PrefixOfWhole(setup, fragments, n);
      var before := Flatten(fragments[..n - 1]);
      assert "" + before == before && part == before + last;
      if before == Flatten(fragments) {
        FlattenPrefix(fragments, n);
        assert last == "" && part == before;
      }
    }
  }

  /** A response completed from fragments is a response in one call: its own octets alone, given
  at once, complete with the same head, body and trailers. */
  lemma FragmentedAcceptance(setup: Setup, fragments: seq<string>)
    requires ConsumedAll(setup, fragments).progress.Complete?
    ensures var st := ConsumedAll(setup, fragments);
            && st.progress.messageBytes <= |st.buffer|
            && st.buffer <= Flatten(fragments)
            && Consumed(setup, INITIAL, st.buffer[..st.progress.messageBytes]).progress == st.progress
    decreases |fragments|
  {
    hide Parse;
    var n := |fragments| - 1;
    var before := ConsumedAll(setup, fragments[..n]);
    var st := ConsumedAll(setup, fragments);
    if before.progress.Complete? {
      FragmentedAcceptance(setup, fragments[..n]);
    } else {
      if n == 0 {
        assert fragments[..0] == [];
        assert "" + fragments[0] == fragments[0];
      } else {
        UnfinishedRun(setup, fragments[..n]);
        assert "" + Flatten(fragments[..n]) == Flatten(fragments[..n]);
      }
      assert st.buffer == Flatten(fragments);
      assert st == Consumed(setup, before, fragments[n]);
      CompleteWithin(setup, st.buffer);
      var m := st.progress.messageBytes;
      assert st.buffer == st.buffer[..m] + st.buffer[m..];
      CutAtEnd(setup, st.buffer[..m], st.buffer[m..]);
      assert "" + st.buffer[..m] == st.buffer[..m];
    }
  }

  lemma CompleteWithin(setup: Setup, buffer: string)
    ensures var p := Parse(setup, buffer); p.Complete? ==> p.messageBytes <= |buffer|
  {
    hide Find, ParseStatusLine, ParseHead, Run;
    HeadOf(setup, buffer);
  }

  // ---------------------------------------------------------------- the limit that is not monotone

  lemma LineStillOpen(buffer: string, from: nat, lineEnd: nat)
    requires Find(buffer, CRLF, from) == Some(lineEnd)
    ensures Find(buffer[..lineEnd + 1], CRLF, from).None?
  {
    var cut := buffer[..lineEnd + 1];
    assert buffer == cut + buffer[lineEnd + 1..];
    if Find(cut, CRLF, from).Some? {
      FindAppend(cut, buffer[lineEnd + 1..], CRLF, from);
    }
  }

  /** A size line over the limit, accepted when it arrives whole, is refused when cut in its CRLF. */
  lemma {:induction false} LongLineCut(setup: Setup, buffer: string, scan: Scan) returns (k: nat)
    requires scan.position <= |buffer| && !SizeLinesFit(setup, buffer, scan)
    ensures scan.position <= k < |buffer| && Run(setup, buffer[..k], scan).1 == Reject(InvalidChunkSize)
    decreases |buffer| - scan.position
  {
    hide Find, ParseHeaderLine, ExtensionAccepted, ChunkedDecoder.ChunkSize, MoveData, MoveTrailers;
    var m := MoveOn(setup, buffer, scan);
    if scan.stage == AtSize && m.next.position - scan.position > setup.maxHeader {
      k := m.next.position - 1;
      LineStillOpen(buffer, scan.position, m.next.position - 2);
    } else {
      k := LongLineCut(setup, buffer, m.next);
      assert buffer == buffer[..k] + buffer[k..];
      MovePrefix(setup, buffer[..k], buffer[k..], scan);
    }
  }

  /** Exactly when feeding in pieces is harmless: a response accepted in one call is never refused
  on a strict prefix if and only if each of its chunk-size lines, CRLF included, fits the header
  limit. */
  lemma FragmentationExactness(setup: Setup, whole: string)
    requires Parse(setup, whole).Complete? && Parse(setup, whole).messageBytes == |whole|
    ensures ChunkSizeLinesFit(setup, whole) <==> forall k | 0 <= k < |whole| :: Unfinished(Parse(setup, whole[..k]))
  {
    hide Parse, SizeLinesFit;
    if ChunkSizeLinesFit(setup, whole) {
      forall k | 0 <= k < |whole| ensures Unfinished(Parse(setup, whole[..k])) {
        assert whole == whole[..k] + whole[k..];
        StrictPrefixWaits(setup, whole[..k], whole[k..]);
      }
    } else {
      HeadOf(setup, whole);
      var head := Parse(setup, whole).head;
      var k := LongLineCut(setup, whole, StartScan(head.headerBytes));
      assert whole == whole[..k] + whole[k..];
      HeadPrefix(setup, whole[..k], whole[k..], head);
      ParseWithHead(setup, whole[..k], head);
    }
  }

  /** Such lines exist: accepted when it arrives whole, refused when it is cut before its CRLF. */
  lemma LongSizeLine(setup: Setup, buffer: string, scan: Scan, line: string, rest: string)
    requires scan.stage == AtSize && scan.position == |buffer|
    requires Lacks(line, '\r') && |line| >= setup.maxHeader
    requires ExtensionAccepted(line) && ChunkedDecoder.ChunkSize(line) == Some(0)
    ensures MoveOn(setup, buffer + line, scan) == Reject(InvalidChunkSize)
    ensures MoveOn(setup, buffer + line + CRLF + rest, scan).Advance?
  {
    hide ExtensionAccepted, Find;
    FindLineEnd(buffer, line, rest);
    assert (buffer + line + CRLF + rest)[|buffer|..|buffer| + |line|] == line;
    var cut := buffer + line;
    forall k | |buffer| <= k < |cut| ensures !At(cut, CRLF, k) {
      AtFirst(cut, CRLF, k);
      assert cut[k] == line[k - |buffer|];
    }
  }

  lemma {:induction false} ZerosAreZero(n: nat)
    requires n > 0
    ensures AllDigits(16, Zeros(n)) && NumeralValue(16, Zeros(n)) == 0
    decreases n
  {
    if n > 1 {
      ZerosAreZero(n - 1);
      assert Zeros(n)[..n - 1] == Zeros(n - 1);
    } else {
      assert Zeros(1)[..0] == "";
    }
  }

  /** For instance a last-chunk line of as many zeros as the header limit. */
  lemma ZerosRefused(setup: Setup, buffer: string, scan: Scan, rest: string)
    requires scan.stage == AtSize && scan.position == |buffer| && setup.maxHeader > 0
    ensures MoveOn(setup, buffer + Zeros(setup.maxHeader), scan) == Reject(InvalidChunkSize)
    ensures MoveOn(setup, buffer + Zeros(setup.maxHeader) + CRLF + rest, scan).Advance?
  {
    var line := Zeros(setup.maxHeader);
    ZerosAreZero(setup.maxHeader);
    forall k ensures !At(line, ";", k) {
      AtFirst(line, ";", k);
    }
    LongSizeLine(setup, buffer, scan, line, rest);
  }
}
