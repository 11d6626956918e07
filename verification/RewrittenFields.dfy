/** What the other side reads from the rewritten fields, name by name (RFC 9110, section 7.6.1). */
module RewrittenFields {
  import opened Text
  import opened HeaderFields
  import opened MessageText
  import opened Rewriting
  import Req = RequestParsing
  import ToUpstream = RequestRewriting
  import Rsp = ResponseParsing
  import ToClient = ResponseRewriting

  /** Exactly one field has this name, and this is its value. */
  ghost predicate OnlyOne(hs: seq<HeaderField>, name: string, value: string) {
    exists i :: 0 <= i < |hs| && Named(hs[i], name) && hs[i].value == value
                && forall j | 0 <= j < |hs| && j != i :: !Named(hs[j], name)
  }

  predicate Without(hs: seq<HeaderField>, name: string) { forall i | 0 <= i < |hs| :: !Named(hs[i], name) }

  lemma OnlyOneIsTheValue(hs: seq<HeaderField>, name: string, value: string)
    requires OnlyOne(hs, name, value)
    ensures HeaderValue(hs, name) == Some(value)
  {
    hide Named;
  }

  lemma OneIn(kept: seq<HeaderField>, own: seq<HeaderField>, i: nat, name: string)
    requires Without(kept, name) && i < |own| && Named(own[i], name)
    requires forall j | 0 <= j < |own| && j != i :: !Named(own[j], name)
    ensures OnlyOne(kept + own, name, own[i].value)
  {
    hide Named;
    var hs := kept + own;
    assert hs[|kept| + i] == own[i];
    forall j | 0 <= j < |hs| && j != |kept| + i ensures !Named(hs[j], name) {
      assert if j < |kept| then hs[j] == kept[j] else hs[j] == own[j - |kept|];
    }
  }

  lemma KeptWithout(headers: seq<HeaderField>, removed: set<string>, name: string)
    requires Lower(name) in removed
    ensures Without(Kept(headers, removed), name)
  {
    hide Lower;
    var kept := Kept(headers, removed);
    forall i | 0 <= i < |kept| ensures !Named(kept[i], name) {
      assert kept[i] in kept;
    }
  }

  // ---------------------------------------------------------------- names

  lemma HopNames()
    ensures Lower("Connection") == "connection" && Lower("Proxy-Connection") == "proxy-connection"
    ensures Lower("Keep-Alive") == "keep-alive" && Lower("TE") == "te" && Lower("Trailer") == "trailer"
    ensures Lower("Transfer-Encoding") == "transfer-encoding" && Lower("Upgrade") == "upgrade"
  {
  }

  /** No two of the names the proxy writes or removes are the same but for case. */
  lemma NamesDiffer()
    ensures forall a, b | a in NAMES && b in NAMES && a != b :: !EqualsIgnoreCase(a, b)
  {
    hide Lower;
    LowerNames();
    LowerForwardedNames();
    HopNames();
    assert |"host"| == 4 && |"content-length"| == 14 && |"x-forwarded-for"| == 15 && |"te"| == 2;
    assert |"connection"| == 10 == |"keep-alive"| && "connection"[0] != "keep-alive"[0];
    assert |"trailer"| == 7 == |"upgrade"| && "trailer"[0] != "upgrade"[0];
    assert |"x-forwarded-proto"| == 17 == |"transfer-encoding"| && "x-forwarded-proto"[0] != "transfer-encoding"[0];
    assert |"x-forwarded-host"| == 16 == |"proxy-connection"| && "x-forwarded-host"[0] != "proxy-connection"[0];
  }

  const HOP_NAMES: set<string> :=
    {"Proxy-Connection", "Keep-Alive", "TE", "Trailer", "Transfer-Encoding", "Upgrade"}

  const NAMES: set<string> :=
    {"Host", "Content-Length", "X-Forwarded-For", "X-Forwarded-Host", "X-Forwarded-Proto", "Connection"} + HOP_NAMES

  lemma SameName(name: string)
    ensures EqualsIgnoreCase(name, name)
  {
  }

  // ---------------------------------------------------------------- what an upstream reads

  lemma OwnPlaces(headers: seq<HeaderField>, client: string)
    requires HeaderValue(headers, "Host").Some?
    ensures var own, n := ToUpstream.OwnFields(headers, client), |ToUpstream.LengthField(headers)|;
            var host := HeaderValue(headers, "Host").value;
            && |own| == n + 5 && n <= 1 && own[0] == HeaderField("Host", host)
            && (n == 1 ==> own[1].name == "Content-Length")
            && own[n + 1] == HeaderField("X-Forwarded-For", client) && own[n + 2] == HeaderField("X-Forwarded-Host", host)
            && own[n + 3] == HeaderField("X-Forwarded-Proto", "http") && own[n + 4] == HeaderField("Connection", "close")
            && (forall i | 0 <= i < |own| :: own[i].name in NAMES - HOP_NAMES)
            && forall i, j | 0 <= i < j < |own| :: own[i].name != own[j].name
  {
    hide HeaderValue;
    assert |"X-Forwarded-For"| == 15 && |"X-Forwarded-Host"| == 16 && |"X-Forwarded-Proto"| == 17;
    assert |"Host"| == 4 && |"Content-Length"| == 14 && |"Connection"| == 10;
  }

  /** Each of the proxy's own fields is the only one of its name. */
  lemma OwnIsOnly(headers: seq<HeaderField>, client: string, i: nat)
    requires HeaderValue(headers, "Host").Some? && i < |ToUpstream.OwnFields(headers, client)|
    ensures var own := ToUpstream.OwnFields(headers, client);
            OnlyOne(ToUpstream.UpstreamFields(headers, client), own[i].name, own[i].value)
  {
    hide HeaderValue, OnlyOne, Without, Kept, EqualsIgnoreCase, ToUpstream.OwnFields, ToUpstream.Dropped;
    NamesDiffer();
    OwnPlaces(headers, client);
    var kept, own := Kept(headers, ToUpstream.Dropped(headers)), ToUpstream.OwnFields(headers, client);
    DroppedName(headers, own[i].name);
    SameName(own[i].name);
    OneIn(kept, own, i, own[i].name);
  }

  lemma HopNameGone(headers: seq<HeaderField>, client: string, name: string)
    requires HeaderValue(headers, "Host").Some? && name in HOP_NAMES
    ensures Without(ToUpstream.UpstreamFields(headers, client), name)
  {
    hide HeaderValue, Kept, EqualsIgnoreCase, ToUpstream.OwnFields, ToUpstream.Dropped;
    NamesDiffer();
    OwnPlaces(headers, client);
    DroppedName(headers, name);
    NoneIn(Kept(headers, ToUpstream.Dropped(headers)), ToUpstream.OwnFields(headers, client), name);
  }

  /** An upstream is told the client's Host, its address and the scheme, each once, and that the
  connection closes; and none of the fields that concern one connection only reaches it. */
  lemma UpstreamReads(headers: seq<HeaderField>, client: string)
    requires HeaderValue(headers, "Host").Some?
    ensures var fields, host := ToUpstream.UpstreamFields(headers, client), HeaderValue(headers, "Host").value;
            && OnlyOne(fields, "Host", host) && OnlyOne(fields, "X-Forwarded-For", client)
            && OnlyOne(fields, "X-Forwarded-Host", host) && OnlyOne(fields, "X-Forwarded-Proto", "http")
            && OnlyOne(fields, "Connection", "close")
            && forall name | name in HOP_NAMES :: Without(fields, name)
  {
    hide HeaderValue, OnlyOne, Without, ToUpstream.OwnFields, ToUpstream.UpstreamFields, ToUpstream.LengthField;
    OwnPlaces(headers, client);
    var n := |ToUpstream.LengthField(headers)|;
    OwnIsOnly(headers, client, 0);
    OwnIsOnly(headers, client, n + 1);
    OwnIsOnly(headers, client, n + 2);
    OwnIsOnly(headers, client, n + 3);
    OwnIsOnly(headers, client, n + 4);
    forall name | name in HOP_NAMES ensures Without(ToUpstream.UpstreamFields(headers, client), name) {
      HopNameGone(headers, client, name);
    }
  }

  lemma DroppedName(headers: seq<HeaderField>, name: string)
    requires name in NAMES
    ensures Without(Kept(headers, ToUpstream.Dropped(headers)), name)
  {
    hide Lower, Without;
    LowerNames();
    LowerForwardedNames();
    HopNames();
    KeptWithout(headers, ToUpstream.Dropped(headers), name);
  }

  lemma NoneIn(kept: seq<HeaderField>, own: seq<HeaderField>, name: string)
    requires Without(kept, name) && Without(own, name)
    ensures Without(kept + own, name)
  {
    hide Named;
    forall i | 0 <= i < |kept + own| ensures !Named((kept + own)[i], name) {
      assert if i < |kept| then (kept + own)[i] == kept[i] else (kept + own)[i] == own[i - |kept|];
    }
  }

  /** A name that any Connection field of the client lists does not reach the upstream, unless it
  is one the proxy writes itself; and a field of any other name does, unchanged. */
  lemma ListedOrTravels(headers: seq<HeaderField>, client: string, h: HeaderField)
    requires HeaderValue(headers, "Host").Some? && forall name | name in NAMES :: !Named(h, name)
    ensures var listed := exists i :: 0 <= i < |headers| && Named(headers[i], "Connection")
                                      && Lower(h.name) in Tokens(headers[i].value);
            && (listed ==> Without(ToUpstream.UpstreamFields(headers, client), h.name))
            && (!listed && h in headers ==> h in ToUpstream.UpstreamFields(headers, client))
  {
    hide HeaderValue, ToUpstream.OwnFields, ToUpstream.LengthField, Tokens, ConnectionTokens, Lower, Without;
    LowerNames();
    LowerForwardedNames();
    HopNames();
    RemovedExactness(headers, h.name);
    var kept, own := Kept(headers, ToUpstream.Dropped(headers)), ToUpstream.OwnFields(headers, client);
    if Lower(h.name) in Removed(headers) {
      KeptWithout(headers, ToUpstream.Dropped(headers), h.name);
      OwnPlaces(headers, client);
      NotOwn(own, h);
      NoneIn(kept, own, h.name);
    } else if h in headers {
      NotDropped(headers, h);
      assert h in kept;
    }
  }

  lemma NotOwn(own: seq<HeaderField>, h: HeaderField)
    requires forall name | name in NAMES :: !Named(h, name)
    requires forall i | 0 <= i < |own| :: own[i].name in NAMES - HOP_NAMES
    ensures Without(own, h.name)
  {
    hide Lower;
  }

  lemma NotDropped(headers: seq<HeaderField>, h: HeaderField)
    requires Lower(h.name) !in Removed(headers) && forall name | name in NAMES :: !Named(h, name)
    ensures Lower(h.name) !in ToUpstream.Dropped(headers)
  {
    hide Lower, ConnectionTokens;
    LowerNames();
    LowerForwardedNames();
    assert !Named(h, "Host") && !Named(h, "Content-Length") && !Named(h, "X-Forwarded-For");
    assert !Named(h, "X-Forwarded-Host") && !Named(h, "X-Forwarded-Proto");
  }

  // ---------------------------------------------------------------- what a client reads

  /** A client reads one Connection field, and it lists `close` exactly if the connection closes. */
  lemma ClientReads(head: Rsp.Head, framing: seq<HeaderField>, close: bool)
    requires forall i | 0 <= i < |framing| :: framing[i].name in {"Content-Length", "Transfer-Encoding"}
    ensures var fields := ToClient.ClientFields(head, framing, close);
            && OnlyOne(fields, "Connection", if close then "close" else "keep-alive")
            && HeaderValue(fields, "Connection").Some?
            && ("close" in Tokens(HeaderValue(fields, "Connection").value) <==> close)
            && forall name | name in HOP_NAMES - {"Transfer-Encoding"} :: Without(fields, name)
  {
    hide Lower, HeaderValue, OnlyOne, Without, Kept, ConnectionTokens, EqualsIgnoreCase, Tokens;
    NamesDiffer();
    ConnectionLists();
    var kept, own := Kept(head.headers, ToClient.Dropped(head.headers)), framing + [ToClient.ConnectionField(close)];
    assert kept + own == ToClient.ClientFields(head, framing, close);
    forall name | name in HOP_NAMES + {"Connection"} ensures Without(kept, name) {
      DroppedForClient(head.headers, name);
    }
    SameName("Connection");
    OneIn(kept, own, |framing|, "Connection");
    OnlyOneIsTheValue(kept + own, "Connection", own[|framing|].value);
    forall name | name in HOP_NAMES - {"Transfer-Encoding"} ensures Without(kept + own, name) {
      NoneOwn(own, name);
      NoneIn(kept, own, name);
    }
  }

  lemma NoneOwn(own: seq<HeaderField>, name: string)
    requires name in HOP_NAMES - {"Transfer-Encoding"}
    requires forall i | 0 <= i < |own| :: own[i].name in {"Content-Length", "Transfer-Encoding", "Connection"}
    ensures Without(own, name)
  {
    hide EqualsIgnoreCase;
    NamesDiffer();
  }

  lemma DroppedForClient(headers: seq<HeaderField>, name: string)
    requires name in HOP_NAMES + {"Connection"}
    ensures Without(Kept(headers, ToClient.Dropped(headers)), name)
  {
    hide Lower, Without;
    HopNames();
    KeptWithout(headers, ToClient.Dropped(headers), name);
  }

  lemma ConnectionLists()
    ensures "close" in Tokens("close") && "close" !in Tokens("keep-alive")
  {
    hide Find, Trim;
    assert Listed(["close"]) == "close" && Listed(["keep-alive"]) == "keep-alive";
    TrimBoth();
    TokensOfList(["close"]);
    TokensOfList(["keep-alive"]);
    assert ["close"][0] == "close" && ["keep-alive"][0] == "keep-alive";
    assert |"keep-alive"| == 10 && |"close"| == 5;
  }

  lemma TrimBoth()
    ensures Trim("close") == "close" && Trim("keep-alive") == "keep-alive" && Lower("close") == "close"
  {
    hide Trim;
    TrimmedStays("close");
    TrimmedStays("keep-alive");
  }

  /** A response that has no body is relayed with the length it announced, and with no other. */
  lemma AnnouncedLengthKept(head: Rsp.Head, close: bool)
    requires head.mode == Rsp.NoBody
    ensures var fields := ToClient.ClientFields(head, ToClient.RelayFraming(head), close);
            HeaderValue(fields, "Content-Length") == HeaderValue(head.headers, "Content-Length")
  {
    hide Lower, HeaderValue, OnlyOne, Without, Kept, ConnectionTokens, EqualsIgnoreCase;
    NamesDiffer();
    SameName("Content-Length");
    var length := HeaderValue(head.headers, "Content-Length");
    var kept := Kept(head.headers, ToClient.Dropped(head.headers));
    var own := ToClient.RelayFraming(head) + [ToClient.ConnectionField(close)];
    assert kept + own == ToClient.ClientFields(head, ToClient.RelayFraming(head), close);
    LengthDropped(head.headers);
    if length.Some? {
      OneIn(kept, own, 0, "Content-Length");
      OnlyOneIsTheValue(kept + own, "Content-Length", length.value);
    } else {
      NoneNamed(own);
      NoneIn(kept, own, "Content-Length");
      NoValue(kept + own);
    }
  }

  lemma LengthDropped(headers: seq<HeaderField>)
    ensures Without(Kept(headers, ToClient.Dropped(headers)), "Content-Length")
  {
    hide Lower, Without;
    LowerNames();
    KeptWithout(headers, ToClient.Dropped(headers), "Content-Length");
  }

  lemma NoneNamed(own: seq<HeaderField>)
    requires forall i | 0 <= i < |own| :: own[i].name == "Connection"
    ensures Without(own, "Content-Length")
  {
    hide EqualsIgnoreCase;
    NamesDiffer();
  }

  lemma NoValue(hs: seq<HeaderField>)
    requires Without(hs, "Content-Length")
    ensures HeaderValue(hs, "Content-Length").None?
  {
    hide Named;
  }
}
