/** A printed message head and where the parsers find its parts. */
module MessageText {
  import opened Text
  import opened HeaderFields

  /** Start line, header lines, blank line. */
  function HeadText(startLine: string, fields: seq<HeaderField>): string {
    startLine + CRLF + PrintFields(fields) + CRLF
  }

  /** The blank line after printed headers is the first one. */
  lemma {:induction false} BlankLineAfterFields(before: string, fields: seq<HeaderField>, rest: string)
    requires |before| >= 2 && before[|before| - 2..] == CRLF && WellFormedFields(fields)
    ensures Find(before + PrintFields(fields) + CRLF + rest, CRLF_CRLF, |before| - 2) ==
            Some(|before| + |PrintFields(fields)| - 2)
    decreases |fields|
  {
    hide Find;
    var s := before + PrintFields(fields) + CRLF + rest;
    var from := |before| - 2;
    if fields == [] {
      assert s[from..from + 4] == before[from..] + CRLF;
      FindIs(s, CRLF_CRLF, from, from);
    } else {
      var line, more := FieldLine(fields[0]), PrintFields(fields[1..]);
      var before1 := before + line + CRLF;
      assert s == before1 + more + CRLF + rest;
      BlankLineAfterFields(before1, fields[1..], rest);
      FieldLineLacksCr(fields[0]);
      forall k | from <= k < |before1| - 2 ensures !At(s, CRLF_CRLF, k) {
        NotBlankInLine(s, before, line, k);
      }
      FindIs(s, CRLF_CRLF, from, Find(s, CRLF_CRLF, |before1| - 2).value);
    }
  }

  lemma NotBlankInLine(s: string, before: string, line: string, k: nat)
    requires |before| >= 2 && before[|before| - 2..] == CRLF && line != "" && Lacks(line, '\r')
    requires before + line <= s && |before| - 2 <= k < |before| + |line|
    ensures !At(s, CRLF_CRLF, k)
  {
    AtOctet(s, CRLF_CRLF, k, 0);
    if k >= |before| {
      assert s[k] == (before + line)[k] == line[k - |before|];
    } else if k == |before| - 1 {
      assert s[k] == (before + line)[k] == before[|before| - 2..][1];
    } else {
      AtOctet(s, CRLF_CRLF, k, 2);
      assert s[k + 2] == (before + line)[k + 2] == line[0];
    }
  }

  lemma TextLayout(startLine: string, printed: string, rest: string)
    ensures startLine + CRLF + printed + CRLF + rest == "" + startLine + CRLF + (printed + CRLF + rest)
    ensures startLine + CRLF + printed + CRLF + rest == (startLine + CRLF) + printed + (CRLF + rest)
  {
  }

  lemma FindFromEarlier(s: string, pattern: string, from: nat, i: nat)
    requires Find(s, pattern, from) == Some(i)
    requires forall k | 0 <= k < from :: !At(s, pattern, k)
    ensures Find(s, pattern, 0) == Some(i)
  {
    FindIs(s, pattern, 0, i);
  }

  /** The parsers' three searches on a printed head followed by anything. */
  lemma PrintedHead(startLine: string, fields: seq<HeaderField>, rest: string)
    requires Lacks(startLine, '\r') && WellFormedFields(fields) && fields != []
    ensures var s := HeadText(startLine, fields) + rest;
            var headerEnd := |HeadText(startLine, fields)| - 4;
            && headerEnd >= 0
            && Find(s, CRLF, 0) == Some(|startLine|)
            && Find(s, CRLF_CRLF, 0) == Some(headerEnd)
            && ParseBlock(s, |startLine| + 2, headerEnd) == Ok(fields)
  {
    hide Find, PrintFields, ParseLines, At;
    var before := startLine + CRLF;
    var printed := PrintFields(fields);
    var s := HeadText(startLine, fields) + rest;
    var headerEnd := |HeadText(startLine, fields)| - 4;
    TextLayout(startLine, printed, rest);
    FindLineEnd("", startLine, printed + CRLF + rest);
    BlankLineAfterFields(before, fields, rest);
    forall k | 0 <= k < |startLine| ensures !At(s, CRLF_CRLF, k) {
      assert s[k] == startLine[k];
      AtFirst(s, CRLF_CRLF, k);
    }
    FindFromEarlier(s, CRLF_CRLF, |startLine|, headerEnd);
    ParsePrintedLines(before, fields, CRLF + rest, []);
    assert [] + fields == fields;
  }

  lemma StartsWith(startLine: string, fields: seq<HeaderField>, body: string)
    ensures (HeadText(startLine, fields) + body)[..|startLine|] == startLine
  {
  }

  // ---------------------------------------------------------------- header names

  lemma LowerNames()
    ensures Lower("Host") == "host" && Lower("Content-Length") == "content-length"
    ensures Lower("Transfer-Encoding") == "transfer-encoding" && Lower("Expect") == "expect"
    ensures Lower("Connection") == "connection"
  {
  }

  lemma LowerForwardedNames()
    ensures Lower("X-Forwarded-For") == "x-forwarded-for"
    ensures Lower("X-Forwarded-Host") == "x-forwarded-host"
    ensures Lower("X-Forwarded-Proto") == "x-forwarded-proto"
  {
  }

  lemma FixedValues()
    ensures WellFormedField(HeaderField("Connection", "close"))
    ensures WellFormedField(HeaderField("Connection", "keep-alive"))
    ensures WellFormedField(HeaderField("Transfer-Encoding", "chunked"))
    ensures WellFormedField(HeaderField("X-Forwarded-Proto", "http"))
  {
  }

  lemma FixedNames()
    ensures AllToken("Host") && AllToken("Content-Length") && AllToken("Connection") && AllToken("Transfer-Encoding")
    ensures AllToken("X-Forwarded-For") && AllToken("X-Forwarded-Host") && AllToken("X-Forwarded-Proto")
  {
  }
}
