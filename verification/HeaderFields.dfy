/** Header fields: one line, and a block of lines up to the empty line. */
module HeaderFields {
  import opened Text

  datatype HeaderField = HeaderField(name: string, value: string)

  datatype FieldError = MalformedLine | InvalidName | InvalidValue

  predicate Named(header: HeaderField, name: string) { EqualsIgnoreCase(header.name, name) }

  /** The value of the first header with that name. */
  function HeaderValue(headers: seq<HeaderField>, name: string): (r: Option<string>)
    ensures r.None? <==> forall i | 0 <= i < |headers| :: !Named(headers[i], name)
    ensures r.Some? ==> exists i | 0 <= i < |headers| ::
                          && Named(headers[i], name) && headers[i].value == r.value
                          && forall j | 0 <= j < i :: !Named(headers[j], name)
  {
    if headers == [] then None
    else if Named(headers[0], name) then Some(headers[0].value)
    else
      var r := HeaderValue(headers[1..], name);
      assert forall i | 1 <= i < |headers| :: headers[i] == headers[1..][i - 1];
      r
  }

  function ParseHeaderLine(line: string): (r: Result<HeaderField, FieldError>)
    ensures r.Ok? ==> WellFormedField(r.value)
  {
    if line == "" || IsBlank(line[0]) then Err(MalformedLine)
    else
      var colon := Find(line, ":", 0);
      if colon.None? then Err(MalformedLine)
      else
        var name := line[..colon.value];
        var value := Trim(line[colon.value + 1..]);
        if name == "" || !AllToken(name) then Err(InvalidName)
        else if !AllFieldValue(value) then Err(InvalidValue)
        else TrimIsTrimmed(line[colon.value + 1..]); Ok(HeaderField(name, value))
  }

  /** What every accepted header satisfies; also what the header printer needs. */
  predicate WellFormedField(h: HeaderField) {
    h.name != "" && AllToken(h.name) && AllFieldValue(h.value) && Trimmed(h.value)
  }

  predicate WellFormedFields(hs: seq<HeaderField>) { forall i | 0 <= i < |hs| :: WellFormedField(hs[i]) }

  /** The loop over the lines of `buffer[lineStart..headerEnd]`, `parsed` being the headers so far. */
  function ParseLines(buffer: string, lineStart: nat, headerEnd: nat, parsed: seq<HeaderField>)
    : (r: Result<seq<HeaderField>, FieldError>)
    requires headerEnd <= |buffer|
    ensures r.Ok? && WellFormedFields(parsed) ==> WellFormedFields(r.value)
    decreases |buffer| - lineStart
  {
    if lineStart >= headerEnd then Ok(parsed)
    else
      var lineEnd := Find(buffer, CRLF, lineStart);
      if lineEnd.None? || lineEnd.value > headerEnd then Err(MalformedLine)
      else match ParseHeaderLine(buffer[lineStart..lineEnd.value])
        case Err(e) => Err(e)
        case Ok(h) =>
          if lineEnd.value == headerEnd then Ok(parsed + [h])
          else ParseLines(buffer, lineEnd.value + 2, headerEnd, parsed + [h])
  }

  /** The whole block between the start line and the empty line. */
  function ParseBlock(buffer: string, start: nat, headerEnd: nat): (r: Result<seq<HeaderField>, FieldError>)
    requires headerEnd <= |buffer|
    ensures r.Ok? ==> WellFormedFields(r.value)
  {
    if headerEnd + 2 == start then Ok([])
    else if headerEnd < start then Err(MalformedLine)
    else ParseLines(buffer, start, headerEnd, [])
  }

  /** What follows the block plays no part in it. */
  lemma {:induction false} ParseLinesAppend(buffer: string, more: string, lineStart: nat, headerEnd: nat, parsed: seq<HeaderField>)
    requires At(buffer, CRLF, headerEnd)
    ensures ParseLines(buffer + more, lineStart, headerEnd, parsed) == ParseLines(buffer, lineStart, headerEnd, parsed)
    decreases |buffer| - lineStart
  {
    hide Find, ParseHeaderLine;
    if lineStart < headerEnd {
      var lineEnd := Find(buffer, CRLF, lineStart);
      assert lineEnd.Some?;
      FindAppend(buffer, more, CRLF, lineStart);
      assert (buffer + more)[lineStart..lineEnd.value] == buffer[lineStart..lineEnd.value];
      match ParseHeaderLine(buffer[lineStart..lineEnd.value])
      case Err(e) =>
      case Ok(h) => ParseLinesAppend(buffer, more, lineEnd.value + 2, headerEnd, parsed + [h]);
    }
  }

  lemma ParseBlockAppend(buffer: string, more: string, start: nat, headerEnd: nat)
    requires At(buffer, CRLF, headerEnd)
    ensures ParseBlock(buffer + more, start, headerEnd) == ParseBlock(buffer, start, headerEnd)
  {
    ParseLinesAppend(buffer, more, start, headerEnd, []);
  }

  lemma BlankLineIsLineEnd(buffer: string, k: int)
    ensures At(buffer, CRLF_CRLF, k) ==> At(buffer, CRLF, k)
  {
    if At(buffer, CRLF_CRLF, k) {
      assert buffer[k..k + 2] == buffer[k..k + 4][..2] == CRLF;
    }
  }

  /** The first blank line starts at the first CRLF or at least two octets later. */
  lemma BlankLineAfterStartLine(buffer: string, lineEnd: nat, headerEnd: nat)
    requires Find(buffer, CRLF, 0) == Some(lineEnd)
    requires Find(buffer, CRLF_CRLF, 0) == Some(headerEnd)
    ensures headerEnd == lineEnd || headerEnd >= lineEnd + 2
    ensures At(buffer, CRLF, headerEnd)
  {
    hide Find;
    BlankLineIsLineEnd(buffer, headerEnd);
    AtOctet(buffer, CRLF, headerEnd, 0);
    AtOctet(buffer, CRLF, lineEnd, 1);
  }

  lemma NoLineNoBlankLine(buffer: string)
    requires Find(buffer, CRLF, 0).None?
    ensures Find(buffer, CRLF_CRLF, 0).None?
  {
    hide Find;
    forall k ensures At(buffer, CRLF_CRLF, k) ==> At(buffer, CRLF, k) {
      BlankLineIsLineEnd(buffer, k);
    }
  }

  // ---------------------------------------------------------------- printing

  function FieldLine(h: HeaderField): string { h.name + ": " + h.value }

  function PrintField(h: HeaderField): string { FieldLine(h) + CRLF }

  function PrintFields(hs: seq<HeaderField>): string {
    if hs == [] then "" else PrintField(hs[0]) + PrintFields(hs[1..])
  }

  lemma {:induction false} PrintFieldsAppend(a: seq<HeaderField>, b: seq<HeaderField>)
    ensures PrintFields(a + b) == PrintFields(a) + PrintFields(b)
    decreases |a|
  {
    if a == [] {
      assert a + b == b;
    } else {
      assert (a + b)[0] == a[0] && (a + b)[1..] == a[1..] + b;
      PrintFieldsAppend(a[1..], b);
    }
  }

  lemma ColonOfFieldLine(h: HeaderField)
    requires WellFormedField(h)
    ensures FieldLine(h) != "" && !IsBlank(FieldLine(h)[0]) && Find(FieldLine(h), ":", 0) == Some(|h.name|)
  {
    hide Find;
    var line := FieldLine(h);
    assert line[0] == h.name[0];
    forall k | 0 <= k < |h.name| ensures !At(line, ":", k) {
      assert line[k] == h.name[k];
      AtFirst(line, ":", k);
    }
    assert line[|h.name|..|h.name| + 1] == ":";
    FindIs(line, ":", 0, |h.name|);
  }

  lemma FieldLineParts(h: HeaderField)
    ensures FieldLine(h)[..|h.name|] == h.name && FieldLine(h)[|h.name| + 1..] == " " + h.value
  {
  }

  /** A printed header line parses back to the header. */
  lemma ParsePrintedLine(h: HeaderField)
    requires WellFormedField(h)
    ensures ParseHeaderLine(FieldLine(h)) == Ok(h)
  {
    hide Find, At, AllToken, AllFieldValue, Trim, Trimmed, TrimLeft, TrimRight, IsBlank, FieldLine;
    ColonOfFieldLine(h);
    FieldLineParts(h);
    TrimPrinted(h.value);
  }

  /** A line as anybody may write it: name, colon, any blanks, the value, any blanks. */
  ghost predicate WrittenAs(line: string, h: HeaderField) {
    exists before, after :: AllBlank(before) && AllBlank(after) && line == h.name + ":" + (before + h.value + after)
  }

  lemma NameColon(name: string, rest: string)
    requires name != "" && AllToken(name)
    ensures var line := name + ":" + rest;
            && Find(line, ":", 0) == Some(|name|) && line[..|name|] == name && line[|name| + 1..] == rest && !IsBlank(line[0])
  {
    hide Find;
    assert name + ":" + rest == "" + name + [':'] + rest;
    forall i | 0 <= i < |name| ensures name[i] != ':' {
      assert IsTokenChar(name[i]);
    }
    FindSeparator("", name, rest, ':');
    assert (name + ":" + rest)[0] == name[0] && IsTokenChar(name[0]);
  }

  /** A line is read as a field exactly when it is that field, written with any blanks around the
  value, and the field is well formed. */
  lemma FieldLineExactness(line: string, h: HeaderField)
    ensures ParseHeaderLine(line) == Ok(h) <==> WellFormedField(h) && WrittenAs(line, h)
  {
    hide Find, AllToken, AllFieldValue, Trim, Trimmed, IsBlank, AllBlank;
    if WellFormedField(h) && WrittenAs(line, h) {
      var before, after :| AllBlank(before) && AllBlank(after) && line == h.name + ":" + (before + h.value + after);
      NameColon(h.name, before + h.value + after);
      TrimAround(before, h.value, after);
    }
    if ParseHeaderLine(line) == Ok(h) {
      var colon := Find(line, ":", 0).value;
      var before, after := TrimTakesBlanks(line[colon + 1..]);
      assert At(line, ":", colon);
      assert line == line[..colon] + ":" + line[colon + 1..];
    }
  }

  lemma FieldLineLacksCr(h: HeaderField)
    requires WellFormedField(h)
    ensures Lacks(FieldLine(h), '\r')
  {
    var line := FieldLine(h);
    forall i | 0 <= i < |line| ensures line[i] != '\r' {
      if i < |h.name| {
        assert line[i] == h.name[i];
      } else if i >= |h.name| + 2 {
        assert line[i] == h.value[i - |h.name| - 2];
      }
    }
  }

  lemma ParseOnePrintedLine(before: string, h: HeaderField, after: string, headerEnd: nat, parsed: seq<HeaderField>)
    requires WellFormedField(h)
    requires |before| + |FieldLine(h)| <= headerEnd <= |before| + |FieldLine(h)| + 2 + |after|
    requires |before| < headerEnd
    ensures var buffer := before + FieldLine(h) + CRLF + after;
            ParseLines(buffer, |before|, headerEnd, parsed) ==
            if |before| + |FieldLine(h)| == headerEnd then Ok(parsed + [h])
            else ParseLines(buffer, |before| + |FieldLine(h)| + 2, headerEnd, parsed + [h])
  {
    hide Find, ParseHeaderLine;
    var buffer := before + FieldLine(h) + CRLF + after;
    FieldLineLacksCr(h);
    FindLineEnd(before, FieldLine(h), after);
    assert buffer[|before|..|before| + |FieldLine(h)|] == FieldLine(h);
    ParsePrintedLine(h);
  }

  /** Printed headers between any start line and the blank line parse back, in order. */
  lemma {:induction false} ParsePrintedLines(before: string, hs: seq<HeaderField>, after: string, parsed: seq<HeaderField>)
    requires WellFormedFields(hs) && hs != []
    ensures |PrintFields(hs)| >= 2
    ensures ParseLines(before + PrintFields(hs) + after, |before|, |before| + |PrintFields(hs)| - 2, parsed) == Ok(parsed + hs)
    decreases |hs|
  {
    hide ParseLines;
    var h, rest := hs[0], PrintFields(hs[1..]);
    assert PrintFields(hs) == FieldLine(h) + CRLF + rest && FieldLine(h) != "" && (|hs| == 1 ==> rest == "");
    hide PrintFields, FieldLine, PrintField, WellFormedField;
    var headerEnd := |before| + |PrintFields(hs)| - 2;
    Regroup(before, FieldLine(h), CRLF, rest, after);
    ParseOnePrintedLine(before, h, rest + after, headerEnd, parsed);
    if |hs| == 1 {
      assert hs == [h];
    } else {
      var before1 := before + FieldLine(h) + CRLF;
      ParsePrintedLines(before1, hs[1..], after, parsed + [h]);
      FirstMoved(parsed, hs);
    }
  }

  lemma FirstMoved(parsed: seq<HeaderField>, hs: seq<HeaderField>)
    requires hs != []
    ensures parsed + [hs[0]] + hs[1..] == parsed + hs
  {
  }

  lemma Regroup(a: string, b: string, c: string, d: string, e: string)
    ensures a + (b + c + d) + e == a + b + c + (d + e)
    ensures a + (b + c + d) + e == (a + b + c) + d + e
  {
  }
}
