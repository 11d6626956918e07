/** Start lines and body modes, said of the text alone (RFC 9112, sections 4 and 6.3). */
module ResponseFraming {
  import opened Text
  import opened HeaderFields
  import opened MessageText
  import opened ResponseParsing
  import ToClient = ResponseRewriting

  // ---------------------------------------------------------------- the status line

  lemma SameDigits(code: nat, a: char, b: char, c: char)
    requires 100 <= code <= 999 && IsDigit(a) && IsDigit(b) && IsDigit(c)
    requires (a as int - '0' as int) * 100 + (b as int - '0' as int) * 10 + (c as int - '0' as int) == code
    ensures Decimal(code) == [a, b, c]
  {
    hide Decimal;
    DecimalThree(code);
    var d := Decimal(code);
    OneNumeral(a as int - 48, b as int - 48, c as int - 48, d[0] as int - 48, d[1] as int - 48, d[2] as int - 48);
  }

  lemma OneNumeral(a: int, b: int, c: int, x: int, y: int, z: int)
    requires 0 <= a < 10 && 0 <= b < 10 && 0 <= c < 10 && 0 <= x < 10 && 0 <= y < 10 && 0 <= z < 10
    requires a * 100 + b * 10 + c == x * 100 + y * 10 + z
    ensures a == x && b == y && c == z
  {
  }

  /** What a status line says: version, three digits, and a reason, which may be missing with or
  without the blank before it. */
  predicate StatusLineIs(text: string, line: StatusLine) {
    var start := line.version + " " + Decimal(line.code);
    && line.version in {"HTTP/1.0", "HTTP/1.1"} && 100 <= line.code <= 599 && AllFieldValue(line.reason)
    && (text == start + " " + line.reason || (text == start && line.reason == ""))
  }

  lemma StatusLineExactness(text: string, line: StatusLine)
    ensures ParseStatusLine(text) == Ok(line) <==> StatusLineIs(text, line)
  {
    hide Find, AllFieldValue, Decimal;
    if ParseStatusLine(text) == Ok(line) {
      var s := Find(text, " ", 0).value;
      AtOctet(text, " ", s, 0);
      SameDigits(line.code, text[s + 1], text[s + 2], text[s + 3]);
      StatusTextParts(text, s);
    }
    if StatusLineIs(text, line) {
      if text == line.version + " " + Decimal(line.code) + " " + line.reason {
        ToClient.StatusLineParses(line);
      } else {
        BareStatusLine(text, line);
      }
    }
  }

  lemma StatusTextParts(text: string, s: nat)
    requires s + 4 <= |text| && text[s] == ' '
    ensures text == text[..s] + " " + [text[s + 1], text[s + 2], text[s + 3]] + text[s + 4..]
    ensures s + 4 < |text| && text[s + 4] == ' ' ==>
              text == text[..s] + " " + [text[s + 1], text[s + 2], text[s + 3]] + " " + text[s + 5..]
    ensures s + 4 == |text| ==> text == text[..s] + " " + [text[s + 1], text[s + 2], text[s + 3]]
  {
  }

  lemma BareStatusLine(text: string, line: StatusLine)
    requires line.version in {"HTTP/1.0", "HTTP/1.1"} && 100 <= line.code <= 599 && line.reason == ""
    requires text == line.version + " " + Decimal(line.code)
    ensures ParseStatusLine(text) == Ok(line)
  {
    hide Find, Decimal;
    DecimalThree(line.code);
    assert text == "" + line.version + [' '] + Decimal(line.code);
    FindSeparator("", line.version, Decimal(line.code), ' ');
    assert text[..8] == line.version && text[9..] == Decimal(line.code);
  }

  /** Octets without a blank line are refused as soon as they reach the limit, and before that only
  for what is wrong with their first line. */
  lemma HeadToCome(setup: Setup, buffer: string)
    requires Find(buffer, CRLF_CRLF, 0).None?
    ensures |buffer| >= setup.maxHeader ==> Parse(setup, buffer).Failed?
    ensures |buffer| < setup.maxHeader ==>
              (Parse(setup, buffer) == AwaitingHead <==>
               Find(buffer, CRLF, 0).None? || ParseStatusLine(buffer[..Find(buffer, CRLF, 0).value]).Ok?)
  {
    hide Find, ParseStatusLine;
  }

  // ---------------------------------------------------------------- the body mode

  predicate Has(hs: seq<HeaderField>, name: string) { exists i | 0 <= i < |hs| :: Named(hs[i], name) }

  /** Every Content-Length says `n`. */
  predicate AllSay(hs: seq<HeaderField>, n: nat) {
    forall i | 0 <= i < |hs| && Named(hs[i], "Content-Length") :: SizeOf(10, hs[i].value) == Some(n)
  }

  /** The only transfer coding is `chunked`. */
  predicate OnlyChunked(hs: seq<HeaderField>) {
    forall i | 0 <= i < |hs| && Named(hs[i], "Transfer-Encoding") :: Lower(hs[i].value) == "chunked"
  }

  /** The framing fields do not contradict each other. */
  ghost predicate Agreeing(hs: seq<HeaderField>) {
    && (exists n: nat :: AllSay(hs, n)) && OnlyChunked(hs)
    && !(Has(hs, "Transfer-Encoding") && Has(hs, "Content-Length"))
  }

  /** Responses to HEAD, and those with 1xx, 204 and 304, have no body, whatever their fields say. */
  predicate NeverHasBody(verb: string, code: nat) {
    Lower(verb) == "head" || (100 <= code && code <= 199) || code == 204 || code == 304
  }

  ghost predicate ModeIs(setup: Setup, code: nat, hs: seq<HeaderField>, mode: BodyMode) {
    if NeverHasBody(setup.verb, code) then mode == NoBody
    else if Has(hs, "Transfer-Encoding") then mode == Chunked
    else if Has(hs, "Content-Length") then mode.ContentLength? && AllSay(hs, mode.length) && mode.length <= setup.maxBody
    else mode == CloseDelimited
  }

  lemma LowerHead()
    ensures Lower("HEAD") == "head" && Lower("chunked") == "chunked"
  {
  }

  lemma {:induction false} FramingMeans(seen: Framing, hs: seq<HeaderField>)
    ensures var r := NoteHeaders(seen, hs);
            && (r.Ok? ==> OnlyChunked(hs) && (r.value.chunked <==> seen.chunked || Has(hs, "Transfer-Encoding")))
            && (r.Ok? && seen.length.Some? ==> r.value.length == seen.length)
            && (r.Ok? && r.value.length.Some? ==> AllSay(hs, r.value.length.value))
            && (r.Ok? ==> (r.value.length.Some? <==> seen.length.Some? || Has(hs, "Content-Length")))
    decreases |hs|
  {
    hide EqualsIgnoreCase, SizeOf, Lower;
    LowerHead();
    if hs != [] && NoteHeader(seen, hs[0]).Ok? {
      NotedHeader(seen, hs[0]);
      FramingMeans(NoteHeader(seen, hs[0]).value, hs[1..]);
      SplitFirst(hs);
    }
  }

  lemma NotedHeader(seen: Framing, h: HeaderField)
    requires NoteHeader(seen, h).Ok?
    ensures Named(h, "Transfer-Encoding") ==> Lower(h.value) == "chunked"
  {
    LowerHead();
  }

  lemma SplitFirst(hs: seq<HeaderField>)
    requires hs != []
    ensures forall name :: Has(hs, name) <==> Named(hs[0], name) || Has(hs[1..], name)
    ensures forall n: nat :: AllSay(hs, n) <==>
                       (Named(hs[0], "Content-Length") ==> SizeOf(10, hs[0].value) == Some(n)) && AllSay(hs[1..], n)
    ensures OnlyChunked(hs) <==>
            (Named(hs[0], "Transfer-Encoding") ==> Lower(hs[0].value) == "chunked") && OnlyChunked(hs[1..])
  {
    hide Named, SizeOf, Lower;
    assert hs == [hs[0]] + hs[1..];
  }

  lemma {:induction false} FramingAccepts(seen: Framing, hs: seq<HeaderField>, n: nat)
    requires AllSay(hs, n) && OnlyChunked(hs) && (seen.length.Some? ==> seen.length == Some(n))
    ensures NoteHeaders(seen, hs).Ok?
    decreases |hs|
  {
    hide SizeOf, Lower;
    LowerHead();
    if hs != [] {
      SplitFirst(hs);
      FramingAccepts(NoteHeader(seen, hs[0]).value, hs[1..], n);
    }
  }

  /** A response head is given a body mode exactly when its framing fields agree, and then the one
  that request, status and fields determine. */
  lemma BodyModeExactness(setup: Setup, code: nat, hs: seq<HeaderField>, headerBytes: nat, mode: BodyMode)
    requires ValidSetup(setup) && headerBytes <= setup.maxHeader
    ensures SelectBodyMode(setup, code, hs, headerBytes) == Ok(mode) <==> Agreeing(hs) && ModeIs(setup, code, hs, mode)
  {
    hide NoteHeaders, Has, AllSay, OnlyChunked, Lower;
    LowerHead();
    var seen := Framing(None, false);
    FramingMeans(seen, hs);
    NoneSays(hs);
    if Agreeing(hs) {
      var n: nat :| AllSay(hs, n);
      FramingAccepts(seen, hs, n);
      if Has(hs, "Content-Length") {
        SayOnce(hs, n);
      }
    }
  }

  lemma NoneSays(hs: seq<HeaderField>)
    ensures !Has(hs, "Content-Length") ==> AllSay(hs, 0)
  {
  }

  lemma SayOnce(hs: seq<HeaderField>, n: nat)
    requires Has(hs, "Content-Length") && AllSay(hs, n)
    ensures forall m: nat :: AllSay(hs, m) ==> m == n
  {
    hide Named, SizeOf;
  }

  /** Whatever its Content-Length says and whatever follows: a response that never has a body is
  complete at the end of its head, and no other kind of response has the mode without one. */
  lemma BodilessCompletes(setup: Setup, buffer: string, head: Head)
    requires ValidSetup(setup) && HasHead(setup, buffer, head)
    ensures head.mode == NoBody <==> NeverHasBody(setup.verb, head.line.code)
    ensures NeverHasBody(setup.verb, head.line.code) ==> Parse(setup, buffer) == Complete(head, "", [], head.headerBytes)
  {
    hide Parse, NeverHasBody;
    ParseWithHead(setup, buffer, head);
    HeadMode(setup, buffer, head);
    BodyModeExactness(setup, head.line.code, head.headers, head.headerBytes, head.mode);
  }

  lemma HeadMode(setup: Setup, buffer: string, head: Head)
    requires HasHead(setup, buffer, head)
    ensures SelectBodyMode(setup, head.line.code, head.headers, head.headerBytes) == Ok(head.mode)
    ensures head.headerBytes <= setup.maxHeader
  {
    hide Find, ParseStatusLine, ParseBlock, SelectBodyMode;
  }
}
