/** Header rewriting between the hops of a request (RFC 9110, section 7.6.1). */
module Rewriting {
  import opened Text
  import opened HeaderFields
  import opened MessageText

  const HOP_BY_HOP: set<string> :=
    {"connection", "proxy-connection", "keep-alive", "te", "trailer", "transfer-encoding", "upgrade"}

  function Token(text: string): set<string> {
    if Trim(text) == "" then {} else {Lower(Trim(text))}
  }

  /** The names a Connection value lists, in lower case. */
  function Tokens(value: string): set<string>
    decreases |value|
  {
    if value == "" then {}
    else
      var comma := Find(value, ",", 0);
      if comma.None? then Token(value)
      else Token(value[..comma.value]) + Tokens(value[comma.value + 1..])
  }

  function ConnectionTokens(headers: seq<HeaderField>): set<string> {
    if headers == [] then {}
    else (if Lower(headers[0].name) == "connection" then Tokens(headers[0].value) else {}) + ConnectionTokens(headers[1..])
  }

  /** Lower-case names that do not travel past this hop. */
  function Removed(headers: seq<HeaderField>): set<string> { HOP_BY_HOP + ConnectionTokens(headers) }

  /** The headers whose names are not in `removed`, in order. */
  function Kept(headers: seq<HeaderField>, removed: set<string>): (r: seq<HeaderField>)
    ensures forall h :: h in r <==> h in headers && Lower(h.name) !in removed
  {
    if headers == [] then []
    else (if Lower(headers[0].name) in removed then [] else [headers[0]]) + Kept(headers[1..], removed)
  }

  lemma {:induction false} KeptAppend(a: seq<HeaderField>, b: seq<HeaderField>, removed: set<string>)
    ensures Kept(a + b, removed) == Kept(a, removed) + Kept(b, removed)
    decreases |a|
  {
    if a == [] {
      assert a + b == b;
    } else {
      assert (a + b)[0] == a[0] && (a + b)[1..] == a[1..] + b;
      KeptAppend(a[1..], b, removed);
    }
  }

  lemma {:induction false} KeptAgain(headers: seq<HeaderField>, removed: set<string>)
    ensures Kept(Kept(headers, removed), removed) == Kept(headers, removed)
    decreases |headers|
  {
    if headers != [] {
      KeptAgain(headers[1..], removed);
      var first := if Lower(headers[0].name) in removed then [] else [headers[0]];
      KeptAppend(first, Kept(headers[1..], removed), removed);
    }
  }

  lemma {:induction false} KeptNone(headers: seq<HeaderField>, removed: set<string>)
    requires forall i | 0 <= i < |headers| :: Lower(headers[i].name) in removed
    ensures Kept(headers, removed) == []
    decreases |headers|
  {
    if headers != [] {
      assert forall i | 1 <= i < |headers| :: headers[i] == headers[1..][i - 1];
      KeptNone(headers[1..], removed);
    }
  }

  lemma KeptWellFormed(headers: seq<HeaderField>, removed: set<string>)
    requires WellFormedFields(headers)
    ensures WellFormedFields(Kept(headers, removed))
  {
    var r := Kept(headers, removed);
    forall i | 0 <= i < |r| ensures WellFormedField(r[i]) {
      assert r[i] in headers;
    }
  }

  lemma {:induction false} ConnectionTokensAre(headers: seq<HeaderField>)
    ensures forall t :: t in ConnectionTokens(headers) <==>
                        exists i :: 0 <= i < |headers| && Named(headers[i], "Connection") && t in Tokens(headers[i].value)
    decreases |headers|
  {
    hide Tokens, Lower;
    LowerNames();
    if headers != [] {
      ConnectionTokensAre(headers[1..]);
      assert headers == [headers[0]] + headers[1..];
    }
  }

  /** Exactly which names do not travel: the seven of the hop-by-hop fields, and whatever any
  Connection field lists. */
  lemma RemovedExactness(headers: seq<HeaderField>, name: string)
    ensures Lower(name) in Removed(headers) <==>
            || Lower(name) in {"connection", "proxy-connection", "keep-alive", "te", "trailer", "transfer-encoding", "upgrade"}
            || exists i :: 0 <= i < |headers| && Named(headers[i], "Connection") && Lower(name) in Tokens(headers[i].value)
  {
    hide Tokens, Lower;
    ConnectionTokensAre(headers);
  }

  /** A value that lists these pieces, one comma between any two. */
  function Listed(pieces: seq<string>): string
    requires pieces != []
  {
    if |pieces| == 1 then pieces[0] else pieces[0] + "," + Listed(pieces[1..])
  }

  /** What a list lists: each piece without the blanks around it and without case, empty ones aside. */
  lemma {:induction false} TokensOfList(pieces: seq<string>)
    requires pieces != [] && forall i | 0 <= i < |pieces| :: Lacks(pieces[i], ',')
    ensures forall t :: t in Tokens(Listed(pieces)) <==>
                        exists i :: 0 <= i < |pieces| && Trim(pieces[i]) != "" && t == Lower(Trim(pieces[i]))
    decreases |pieces|
  {
    hide Find, Trim, Lower;
    var first, value := pieces[0], Listed(pieces);
    assert "" + first == first;
    if |pieces| == 1 {
      FindNoSeparator("", first, ',');
      NothingListed();
    } else {
      var more := Listed(pieces[1..]);
      assert value == "" + first + [','] + more;
      FindSeparator("", first, more, ',');
      assert value[..|first|] == first && value[|first| + 1..] == more;
      TokensOfList(pieces[1..]);
      assert pieces == [first] + pieces[1..];
    }
  }

  lemma NothingListed()
    ensures Trim("") == ""
  {
  }

  // ---------------------------------------------------------------- the loops

  /** The comma loop collects exactly the listed names. */
  method AddConnectionTokens(removed: set<string>, text: string) returns (result: set<string>)
    ensures result == removed + Tokens(text)
  {
    hide Find, Trim, Lower;
    var value := text;
    result := removed;
    while value != ""
      invariant result + Tokens(value) == removed + Tokens(text)
      decreases |value|
    {
      var comma := Find(value, ",", 0);
      var piece := if comma.None? then value else value[..comma.value];
      var token := Trim(piece);
      ghost var before := result;
      if token != "" {
        result := result + {Lower(token)};
      }
      assert result == before + Token(piece);
      if comma.None? {
        break;
      }
      value := value[comma.value + 1..];
    }
  }

  method HopByHopHeaders(headers: seq<HeaderField>) returns (removed: set<string>)
    ensures removed == Removed(headers)
  {
    hide Tokens;
    removed := HOP_BY_HOP;
    for i := 0 to |headers|
      invariant removed + ConnectionTokens(headers[i..]) == Removed(headers)
    {
      assert headers[i..][1..] == headers[i + 1..];
      if Lower(headers[i].name) == "connection" {
        removed := AddConnectionTokens(removed, headers[i].value);
      }
    }
  }

  function HeadSoFar(startLine: string, fields: seq<HeaderField>): string {
    startLine + CRLF + PrintFields(fields)
  }

  /** `append_header`, keeping account of the fields printed so far. */
  method AppendHeader(message: string, h: HeaderField, ghost startLine: string, ghost fields: seq<HeaderField>)
    returns (r: string)
    requires message == HeadSoFar(startLine, fields)
    ensures r == HeadSoFar(startLine, fields + [h])
  {
    PrintFieldsAppend(fields, [h]);
    OneField(h);
    r := message + h.name + ": " + h.value + CRLF;
  }

  lemma HeadTextIs(startLine: string, fields: seq<HeaderField>)
    ensures HeadText(startLine, fields) == HeadSoFar(startLine, fields) + CRLF
  {
  }

  lemma OneField(h: HeaderField)
    ensures PrintFields([h]) == PrintField(h)
  {
  }

  lemma KeptStep(headers: seq<HeaderField>, i: nat, removed: set<string>)
    requires i < |headers|
    ensures Kept(headers[..i + 1], removed) ==
            if Lower(headers[i].name) in removed then Kept(headers[..i], removed)
            else Kept(headers[..i], removed) + [headers[i]]
  {
    assert headers[..i + 1] == headers[..i] + [headers[i]];
    KeptAppend(headers[..i], [headers[i]], removed);
  }

  /** The copying loop: start line, then the kept headers. */
  method CopyHeaders(startLine: string, headers: seq<HeaderField>, removed: set<string>) returns (message: string)
    ensures message == HeadSoFar(startLine, Kept(headers, removed))
  {
    message := startLine + CRLF;
    assert message + "" == message;
    for i := 0 to |headers|
      invariant message == HeadSoFar(startLine, Kept(headers[..i], removed))
    {
      hide HeadSoFar, Kept;
      KeptStep(headers, i, removed);
      if Lower(headers[i].name) !in removed {
        message := AppendHeader(message, headers[i], startLine, Kept(headers[..i], removed));
      }
    }
    assert headers[..|headers|] == headers;
  }
}
