/** The buffering parser and the non-buffering decoder agree on chunked bodies. */
module ChunkAgreement {
  import opened Text
  import opened HeaderFields
  import opened ResponseParsing
  import CD = ChunkedDecoder
  import CG = ChunkGrammar

  /** Where the decoder stands when the scanner stands at `scan`. */
  function DecoderAt(scan: Scan): CD.State {
    match scan.stage
    case AtSize => CD.State(CD.SizeLine, "", false, 0, |scan.body|)
    case AtData => CD.State(CD.Data, "", false, scan.size, |scan.body| + scan.size)
    case AtTrailers => CD.State(CD.TrailerLine, "", false, 0, |scan.body|)
  }

  ghost predicate Sensible(setup: Setup, scan: Scan) {
    && |scan.body| <= setup.maxBody
    && (scan.stage == AtData ==> scan.size > 0 && |scan.body| + scan.size <= setup.maxBody)
  }

  /** Every size and trailer line the scanner passes fits the decoder's line limit. */
  predicate LinesFit(setup: Setup, buffer: string, scan: Scan, maxLine: nat)
    requires scan.position <= |buffer|
    decreases |buffer| - scan.position
  {
    var m := MoveOn(setup, buffer, scan);
    m.Advance? ==>
      && (scan.stage != AtData ==> m.next.position - scan.position - 2 <= maxLine)
      && LinesFit(setup, buffer, m.next, maxLine)
  }

  lemma BlanksAround(s: string)
    ensures forall i | 0 <= i < |s| :: IsBlank(s[i]) || s[i] in Trim(s)
  {
    hide TrimLeft, TrimRight;
    var left := TrimLeft(s);
    var k := |s| - |left|;
    forall i | 0 <= i < |s| ensures IsBlank(s[i]) || s[i] in Trim(s) {
      if i >= k {
        assert s[i] == left[i - k];
        if i - k < |TrimRight(left)| {
          assert TrimRight(left)[i - k] == s[i];
        }
      }
    }
  }

  /** A line that parses as a trailer field has neither CR nor LF, and the decoder takes it. */
  lemma FieldLineTaken(line: string)
    requires ParseHeaderLine(line).Ok? && !CD.ForbiddenTrailer(ParseHeaderLine(line).value.name)
    ensures Lacks(line, '\r') && Lacks(line, '\n') && line != "" && CD.TrailerAccepted(line)
  {
    hide Find, Trim, CD.ForbiddenTrailer;
    var colon := Find(line, ":", 0).value;
    var rest := line[colon + 1..];
    BlanksAround(rest);
    assert line[colon..colon + 1] == ":";
    forall i | 0 <= i < |line| ensures line[i] != '\r' && line[i] != '\n' {
      if i < colon {
        assert line[i] == line[..colon][i];
      } else if i > colon {
        assert line[i] == rest[i - colon - 1];
      }
    }
  }

  lemma SizeLineTaken(line: string)
    requires ExtensionAccepted(line) && CD.ChunkSize(line).Some?
    ensures Lacks(line, '\r') && Lacks(line, '\n')
  {
    hide Find, NumeralValue;
    var text := CD.SizeText(line);
    assert AllDigits(16, text);
    forall i | 0 <= i < |line| ensures line[i] != '\r' && line[i] != '\n' {
      if i < |text| {
        assert line[i] == text[i] && DigitOf(16, text[i]).Some?;
      } else {
        var semicolon := Find(line, ";", 0).value;
        AtFirst(line, ";", semicolon);
        if i > semicolon {
          assert line[i] == line[semicolon + 1..][i - semicolon - 1];
        }
      }
    }
  }

  lemma CutLine(buffer: string, from: nat, lineEnd: nat)
    requires from <= lineEnd && At(buffer, CRLF, lineEnd)
    ensures buffer[from..lineEnd + 2] == buffer[from..lineEnd] + CRLF + ""
  {
    assert buffer[from..lineEnd + 2] == buffer[from..lineEnd] + buffer[lineEnd..lineEnd + 2];
  }

  /** One move of the scanner over a size line is the decoder's run over its octets. */
  lemma SizeMoveSimulated(setup: Setup, limits: CD.Limits, buffer: string, scan: Scan)
    requires scan.position <= |buffer| && scan.stage == AtSize && Sensible(setup, scan) && limits.maxBody == setup.maxBody
    requires var m := MoveOn(setup, buffer, scan); m.Advance? && m.next.position - scan.position - 2 <= limits.maxLine
    ensures var m := MoveOn(setup, buffer, scan);
            && Sensible(setup, m.next)
            && CD.Feed(limits, DecoderAt(scan), buffer[scan.position..m.next.position]) == DecoderAt(m.next)
  {
    hide Find, CD.Feed, CD.ChunkSize, ExtensionAccepted;
    var lineEnd := Find(buffer, CRLF, scan.position).value;
    var line := buffer[scan.position..lineEnd];
    SizeLineTaken(line);
    CutLine(buffer, scan.position, lineEnd);
    CG.FeedLine(limits, DecoderAt(scan), line, "");
    CG.FinishGoodSize(limits, DecoderAt(scan), line, CD.ChunkSize(line).value);
    CD.FeedNothing(limits, CD.FinishLine(limits, DecoderAt(scan), line));
  }

  lemma DataMoveSimulated(setup: Setup, limits: CD.Limits, buffer: string, scan: Scan)
    requires scan.position <= |buffer| && scan.stage == AtData && Sensible(setup, scan)
    requires MoveOn(setup, buffer, scan).Advance?
    ensures var m := MoveOn(setup, buffer, scan);
            && Sensible(setup, m.next)
            && CD.Feed(limits, DecoderAt(scan), buffer[scan.position..m.next.position]) == DecoderAt(m.next)
  {
    hide CD.Feed;
    var dataEnd := scan.position + scan.size;
    CutLine(buffer, scan.position, dataEnd);
    CG.FeedChunkData(limits, DecoderAt(scan), buffer[scan.position..dataEnd], "");
    CD.FeedNothing(limits, DecoderAt(MoveOn(setup, buffer, scan).next));
  }

  lemma TrailerMoveSimulated(setup: Setup, limits: CD.Limits, buffer: string, scan: Scan)
    requires scan.position <= |buffer| && scan.stage == AtTrailers && Sensible(setup, scan)
    requires var m := MoveOn(setup, buffer, scan); m.Advance? && m.next.position - scan.position - 2 <= limits.maxLine
    ensures var m := MoveOn(setup, buffer, scan);
            && Sensible(setup, m.next)
            && CD.Feed(limits, DecoderAt(scan), buffer[scan.position..m.next.position]) == DecoderAt(m.next)
  {
    hide Find, CD.Feed, ParseHeaderLine, CD.TrailerAccepted, CD.ForbiddenTrailer;
    var lineEnd := Find(buffer, CRLF, scan.position).value;
    var line := buffer[scan.position..lineEnd];
    FieldLineTaken(line);
    CutLine(buffer, scan.position, lineEnd);
    CG.FeedLine(limits, DecoderAt(scan), line, "");
    CD.FeedNothing(limits, DecoderAt(scan));
  }

  lemma FinishSimulated(setup: Setup, limits: CD.Limits, buffer: string, scan: Scan)
    requires scan.position <= |buffer| && MoveOn(setup, buffer, scan).Finish?
    ensures CD.Feed(limits, DecoderAt(scan), buffer[scan.position..MoveOn(setup, buffer, scan).messageBytes]) ==
            DecoderAt(scan).(phase := CD.Complete)
  {
    hide Find, CD.Feed;
    CutLine(buffer, scan.position, scan.position);
    CG.FeedLine(limits, DecoderAt(scan), "", "");
    CD.FeedNothing(limits, DecoderAt(scan).(phase := CD.Complete));
    assert buffer[scan.position..scan.position] == "";
  }

  lemma {:induction false} RunSimulated(setup: Setup, limits: CD.Limits, buffer: string, scan: Scan)
    requires scan.position <= |buffer| && Sensible(setup, scan) && limits.maxBody == setup.maxBody
    requires LinesFit(setup, buffer, scan, limits.maxLine) && Run(setup, buffer, scan).1.Finish?
    ensures var (last, move) := Run(setup, buffer, scan);
            && scan.position <= move.messageBytes <= |buffer|
            && last.stage == AtTrailers
            && CD.Feed(limits, DecoderAt(scan), buffer[scan.position..move.messageBytes]) ==
               DecoderAt(last).(phase := CD.Complete)
    decreases |buffer| - scan.position
  {
    hide CD.Feed, DecoderAt, Sensible, MoveSize, MoveData, MoveTrailers;
    var m := MoveOn(setup, buffer, scan);
    if m.Advance? {
      match scan.stage {
        case AtSize => SizeMoveSimulated(setup, limits, buffer, scan);
        case AtData => DataMoveSimulated(setup, limits, buffer, scan);
        case AtTrailers => TrailerMoveSimulated(setup, limits, buffer, scan);
      }
      RunSimulated(setup, limits, buffer, m.next);
      var end := Run(setup, buffer, scan).1.messageBytes;
      assert buffer[scan.position..end] == buffer[scan.position..m.next.position] + buffer[m.next.position..end];
      CD.FeedAppend(limits, DecoderAt(scan), buffer[scan.position..m.next.position], buffer[m.next.position..end]);
    } else {
      FinishSimulated(setup, limits, buffer, scan);
      FinishMeansTrailers(setup, buffer, scan);
    }
  }

  lemma FinishMeansTrailers(setup: Setup, buffer: string, scan: Scan)
    requires scan.position <= |buffer| && MoveOn(setup, buffer, scan).Finish?
    ensures scan.stage == AtTrailers
  {
  }

  /** Every chunked body the buffering parser accepts is accepted by the decoder with the same
  body limit and a line limit covering its lines; it finishes on the same octet and not before,
  with a count equal to the length of the decoded body. */
  lemma DecodersAgree(setup: Setup, buffer: string, maxLine: nat)
    requires var p := Parse(setup, buffer); p.Complete? && p.head.mode == Chunked && p.head.headerBytes <= |buffer|
    requires LinesFit(setup, buffer, StartScan(Parse(setup, buffer).head.headerBytes), maxLine)
    ensures var p := Parse(setup, buffer);
            var limits := CD.Limits(setup.maxBody, maxLine);
            && p.head.headerBytes <= p.messageBytes <= |buffer|
            && CD.Feed(limits, CD.INITIAL, buffer[p.head.headerBytes..p.messageBytes]) ==
               CD.INITIAL.(phase := CD.Complete, decoded := |p.body|)
            && forall k | p.head.headerBytes <= k < p.messageBytes ::
                 CD.Feed(limits, CD.INITIAL, buffer[p.head.headerBytes..k]).phase !in {CD.Complete, CD.Error}
  {
    hide CD.Feed, Find, ParseStatusLine, ParseHead, MoveOn, LinesFit;
    var p := Parse(setup, buffer);
    var limits := CD.Limits(setup.maxBody, maxLine);
    HeadOf(setup, buffer);
    ParseWithHead(setup, buffer, p.head);
    var start := StartScan(p.head.headerBytes);
    RunSimulated(setup, limits, buffer, start);
    var b := buffer[p.head.headerBytes..p.messageBytes];
    forall k | p.head.headerBytes <= k < p.messageBytes
      ensures CD.Feed(limits, CD.INITIAL, buffer[p.head.headerBytes..k]).phase !in {CD.Complete, CD.Error}
    {
      var first, second := buffer[p.head.headerBytes..k], buffer[k..p.messageBytes];
      assert b == first + second;
      CD.FeedAppend(limits, CD.INITIAL, first, second);
      var st := CD.Feed(limits, CD.INITIAL, first);
      if st.phase == CD.Error {
        CD.FeedError(limits, st, second);
      }
      if st.phase == CD.Complete {
        CD.FeedComplete(limits, st, second);
      }
    }
  }
}
