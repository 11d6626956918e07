/** Host names and paths as the route table compares them. */
module HostNames {
  import opened Text

  function FindLast(s: string, c: char): (r: Option<nat>)
    ensures r.Some? ==> r.value < |s| && s[r.value] == c && c !in s[r.value + 1..]
    ensures r.None? ==> c !in s
  {
    if s == "" then None
    else if s[|s| - 1] == c then Some(|s| - 1)
    else
      var r := FindLast(s[..|s| - 1], c);
      assert s == s[..|s| - 1] + [s[|s| - 1]];
      assert r.Some? ==> s[r.value + 1..] == s[..|s| - 1][r.value + 1..] + [s[|s| - 1]];
      r
  }

  predicate IsPort(s: string) { s != "" && AllDigits(10, s) && NumeralValue(10, s) <= 65535 }

  predicate IsAddressChar(c: char) { DigitOf(16, c).Some? || c == ':' || c == '.' }

  predicate IsLabelChar(c: char) { 'A' <= c <= 'Z' || 'a' <= c <= 'z' || IsDigit(c) || c == '-' }

  predicate ValidLabel(part: string) {
    && 0 < |part| <= 63 && part[0] != '-' && part[|part| - 1] != '-'
    && forall i | 0 <= i < |part| :: IsLabelChar(part[i])
  }

  /** Labels separated by dots; what follows the last dot may be missing. */
  predicate ValidLabels(s: string)
    decreases |s|
  {
    var dot := Find(s, ".", 0);
    s == "" || (if dot.None? then ValidLabel(s) else ValidLabel(s[..dot.value]) && ValidLabels(s[dot.value + 1..]))
  }

  predicate ValidHost(host: string) {
    if host == "" then false
    else if host[0] == '[' then
      |host| >= 3 && host[|host| - 1] == ']' && forall i | 1 <= i < |host| - 1 :: IsAddressChar(host[i])
    else |host| <= 253 && ValidLabels(host)
  }

  /** The part before a port; nothing when what follows is not a port. */
  function WithoutPort(host: string): Option<string>
    requires host != ""
  {
    if host[0] == '[' then
      var bracket := Find(host, "]", 0);
      if bracket.None? then None
      else if bracket.value + 1 < |host| && (host[bracket.value + 1] != ':' || !IsPort(host[bracket.value + 2..])) then None
      else Some(host[..bracket.value + 1])
    else
      var colon := FindLast(host, ':');
      if colon.None? then Some(host)
      else if Find(host, ":", 0) != colon || !IsPort(host[colon.value + 1..]) then None
      else Some(host[..colon.value])
  }

  function WithoutFinalDot(host: string): string {
    if host != "" && host[|host| - 1] == '.' then host[..|host| - 1] else host
  }

  /** The form hosts are compared in; empty for what is not a host. */
  function NormalizeHost(header: string): string {
    var host := Trim(header);
    var bare := if host == "" then None else WithoutPort(host);
    if bare.None? then ""
    else
      var name := Lower(WithoutFinalDot(bare.value));
      if ValidHost(name) then name else ""
  }

  /** The path of an origin-form target, without its query. */
  function TargetPath(target: string): string {
    if target == "" || target[0] != '/' then ""
    else
      var query := Find(target, "?", 0);
      if query.None? then target else target[..query.value]
  }

  // ---------------------------------------------------------------- the loops

  method ValidPort(value: string) returns (ok: bool)
    ensures ok == IsPort(value)
  {
    if value == "" {
      return false;
    }
    for i := 0 to |value|
      invariant AllDigits(10, value[..i])
    {
      if !IsDigit(value[i]) {
        assert DigitOf(10, value[i]).None?;
        return false;
      }
    }
    assert value[..|value|] == value;
    var port := 0;
    for i := 0 to |value|
      invariant port == NumeralValue(10, value[..i]) <= 65535
    {
      assert value[..i + 1][..i] == value[..i];
      port := port * 10 + (value[i] as int - '0' as int);
      if port > 65535 {
        NumeralPrefix(10, value, i + 1);
        return false;
      }
    }
    return true;
  }

  method ValidNormalizedHost(host: string) returns (ok: bool)
    ensures ok == ValidHost(host)
  {
    hide Find, ValidLabel, ValidLabels;
    if host == "" {
      return false;
    }
    if host[0] == '[' {
      if |host| < 3 || host[|host| - 1] != ']' {
        return false;
      }
      for i := 1 to |host| - 1
        invariant forall k | 1 <= k < i :: IsAddressChar(host[k])
      {
        if !IsAddressChar(host[i]) {
          return false;
        }
      }
      return true;
    }
    if |host| > 253 {
      return false;
    }
    var labelStart := 0;
    assert host[0..] == host;
    while labelStart < |host|
      invariant labelStart <= |host| && ValidLabels(host[labelStart..]) == ValidLabels(host)
    {
      var dot := Find(host, ".", labelStart);
      LabelsFrom(host, labelStart);
      var labelEnd := if dot.None? then |host| else dot.value;
      var labelOk := IsValidLabel(host[labelStart..labelEnd]);
      if !labelOk {
        return false;
      }
      if dot.None? {
        break;
      }
      labelStart := dot.value + 1;
    }
    NoLabels();
    assert labelStart == |host| ==> host[labelStart..] == "";
    return true;
  }

  lemma NoLabels()
    ensures ValidLabels("")
  {
  }

  /** The labels from a place on: one up to the next dot, and those after it. */
  lemma LabelsFrom(host: string, start: nat)
    requires start < |host|
    ensures var dot := Find(host, ".", start);
            && (dot.Some? ==> dot.value + 1 <= |host|)
            && (ValidLabels(host[start..]) <==>
                  if dot.None? then ValidLabel(host[start..|host|])
                  else ValidLabel(host[start..dot.value]) && ValidLabels(host[dot.value + 1..]))
  {
    hide Find, ValidLabel;
    var dot := Find(host, ".", start);
    FindTail(host, start, ".", 0);
    assert host[start..|host|] == host[start..];
    if dot.Some? {
      assert At(host, ".", dot.value);
      assert host[start..][..dot.value - start] == host[start..dot.value];
      assert host[start..][dot.value - start + 1..] == host[dot.value + 1..];
    }
  }

  method IsValidLabel(part: string) returns (ok: bool)
    ensures ok == ValidLabel(part)
  {
    if part == "" || |part| > 63 || part[0] == '-' || part[|part| - 1] == '-' {
      return false;
    }
    for i := 0 to |part|
      invariant forall k | 0 <= k < i :: IsLabelChar(part[k])
    {
      if !IsLabelChar(part[i]) {
        return false;
      }
    }
    return true;
  }

  /** The steps of the normal form, with the loops above for the checks. */
  method Normalize(header: string) returns (normalized: string)
    ensures normalized == NormalizeHost(header)
  {
    hide Find, FindLast, Trim, Lower, IsPort, ValidHost;
    var host := Trim(header);
    if host == "" {
      return "";
    }
    if host[0] == '[' {
      var bracket := Find(host, "]", 0);
      if bracket.None? {
        return "";
      }
      var size := bracket.value + 1;
      BracketInside(host);
      if size < |host| {
        var port := ValidPort(host[size + 1..]);
        if host[size] != ':' || !port {
          return "";
        }
      }
      host := host[..size];
    } else {
      var colon := FindLast(host, ':');
      if colon.Some? {
        var port := ValidPort(host[colon.value + 1..]);
        if Find(host, ":", 0) != colon || !port {
          return "";
        }
        host := host[..colon.value];
      }
    }
    if host != "" && host[|host| - 1] == '.' {
      host := host[..|host| - 1];
    }
    normalized := Lower(host);
    var valid := ValidNormalizedHost(normalized);
    if !valid {
      return "";
    }
  }

  lemma BracketInside(host: string)
    ensures var bracket := Find(host, "]", 0); bracket.Some? ==> bracket.value < |host|
  {
  }

  // ---------------------------------------------------------------- what normalising means

  lemma {:induction false} LabelChars(s: string)
    requires ValidLabels(s)
    ensures forall c :: c in s ==> IsLabelChar(c) || c == '.'
    decreases |s|
  {
    hide Find;
    var dot := Find(s, ".", 0);
    if s != "" && dot.Some? {
      var part, rest := s[..dot.value], s[dot.value + 1..];
      LabelChars(rest);
      assert s == part + [s[dot.value]] + rest;
      assert s[dot.value..dot.value + 1] == ".";
    }
  }

  /** A normalised host is a valid host, and its own lower-case form. */
  lemma NormalForm(header: string)
    ensures var n := NormalizeHost(header);
            n != "" ==> ValidHost(n) && Lower(n) == n && forall c :: c in n ==> !IsBlank(c) && c != '\n'
  {
    hide Find, Trim, WithoutPort;
    var n := NormalizeHost(header);
    if n != "" {
      if n[0] == '[' {
        assert forall i | 1 <= i < |n| - 1 :: IsAddressChar(n[i]);
      } else {
        LabelChars(n);
      }
    }
  }

  /** The case of a host does not matter. */
  lemma CaseDoesNotMatter(header: string)
    ensures NormalizeHost(Lower(header)) == NormalizeHost(header)
  {
    hide ValidHost, Trim, WithoutPort, WithoutFinalDot;
    LowerTrim(header);
    var host := Trim(header);
    if host != "" {
      LowerWithoutPort(host);
      var bare := WithoutPort(host);
      if bare.Some? {
        LowerFinalDot(bare.value);
        LowerTwice(WithoutFinalDot(bare.value));
      }
    }
  }

  lemma LowerFinalDot(host: string)
    ensures WithoutFinalDot(Lower(host)) == Lower(WithoutFinalDot(host))
  {
    LowerSlice(host, 0, |WithoutFinalDot(host)|);
  }

  lemma LowerWithoutPort(host: string)
    requires host != ""
    ensures var bare := WithoutPort(host);
            WithoutPort(Lower(host)) == if bare.None? then None else Some(Lower(bare.value))
  {
    hide Find, FindLast, IsPort;
    hide At;
    LowerFind(host, ']');
    LowerFind(host, ':');
    LowerFindLast(host, ':');
    var bracket, colon := Find(host, "]", 0), FindLast(host, ':');
    if host[0] == '[' {
      LowerAddress(host);
    } else if colon.Some? {
      LowerSlice(host, 0, colon.value);
      LowerSlice(host, colon.value + 1, |host|);
      LowerPort(host[colon.value + 1..]);
      assert Lower(host)[..colon.value] == Lower(host[..colon.value]);
      assert Lower(host)[colon.value + 1..] == Lower(host[colon.value + 1..]);
    }
  }

  lemma LowerAddress(host: string)
    requires host != "" && host[0] == '['
    ensures var bare := WithoutPort(host);
            WithoutPort(Lower(host)) == if bare.None? then None else Some(Lower(bare.value))
  {
    hide Find, IsPort;
    LowerFind(host, ']');
    var bracket := Find(host, "]", 0);
    if bracket.Some? {
      var size := bracket.value + 1;
      assert At(host, "]", bracket.value);
      LowerSlice(host, 0, size);
      assert Lower(host)[..size] == Lower(host[..size]);
      if size < |host| {
        assert Lower(host)[size] == ':' <==> host[size] == ':';
        LowerSlice(host, size + 1, |host|);
        LowerPort(host[size + 1..]);
        assert Lower(host)[size + 1..] == Lower(host[size + 1..]);
      }
    }
  }

  lemma LowerFind(s: string, c: char)
    requires c == ']' || c == ':'
    ensures Find(Lower(s), [c], 0) == Find(s, [c], 0)
  {
    hide Find;
    assert forall k :: At(Lower(s), [c], k) == At(s, [c], k) by {
      forall k ensures At(Lower(s), [c], k) == At(s, [c], k) {
        if 0 <= k < |s| {
          assert s[k..k + 1] == [s[k]] && Lower(s)[k..k + 1] == [Lower(s)[k]];
        }
      }
    }
    var r := Find(s, [c], 0);
    if r.Some? {
      FindIs(Lower(s), [c], 0, r.value);
    }
  }

  lemma {:induction false} LowerFindLast(s: string, c: char)
    requires c == ':'
    ensures FindLast(Lower(s), c) == FindLast(s, c)
    decreases |s|
  {
    if s != "" && s[|s| - 1] != c {
      LowerSlice(s, 0, |s| - 1);
      LowerFindLast(s[..|s| - 1], c);
    }
  }

  lemma LowerPort(s: string)
    ensures IsPort(Lower(s)) == IsPort(s)
  {
    if forall i | 0 <= i < |s| :: IsDigit(s[i]) {
      assert Lower(s) == s;
    } else {
      var i :| 0 <= i < |s| && !IsDigit(s[i]);
      assert DigitOf(10, s[i]).None? && DigitOf(10, Lower(s)[i]).None?;
    }
  }

  lemma LowerTwice(s: string)
    ensures Lower(Lower(s)) == Lower(s)
  {
  }

  lemma LowerSlice(s: string, i: nat, j: nat)
    requires i <= j <= |s|
    ensures Lower(s)[i..j] == Lower(s[i..j])
  {
  }

  lemma LowerTrim(s: string)
    ensures Trim(Lower(s)) == Lower(Trim(s))
  {
    LowerTrimLeft(s);
    LowerTrimRight(TrimLeft(s));
  }

  lemma LowerTrimLeft(s: string)
    ensures TrimLeft(Lower(s)) == Lower(TrimLeft(s))
  {
    hide TrimLeft;
    var r, q := TrimLeft(s), TrimLeft(Lower(s));
    var k, m := |s| - |r|, |s| - |q|;
    assert r != "" ==> r[0] == s[k];
    assert q != "" ==> q[0] == Lower(s)[m];
    LowerSlice(s, k, |s|);
  }

  lemma LowerTrimRight(s: string)
    ensures TrimRight(Lower(s)) == Lower(TrimRight(s))
  {
    hide TrimRight;
    var r, q := TrimRight(s), TrimRight(Lower(s));
    assert r != "" ==> r[|r| - 1] == s[|r| - 1];
    assert q != "" ==> q[|q| - 1] == Lower(s)[|q| - 1];
    LowerSlice(s, 0, |r|);
  }

  // ---------------------------------------------------------------- normalising again

  lemma {:induction false} DropFinalDot(s: string)
    requires ValidLabels(s) && s != "" && s[|s| - 1] == '.'
    ensures s[..|s| - 1] != "" && s[0] == s[..|s| - 1][0] && ValidLabels(s[..|s| - 1])
    decreases |s|
  {
    hide Find;
    var shorter := s[..|s| - 1];
    var dot := Find(s, ".", 0);
    assert s[|s| - 1..|s|] == ".";
    assert dot.Some?;
    var d := dot.value;
    assert s == shorter + ".";
    if d == |s| - 1 {
      assert Find(shorter, ".", 0).None? by {
        if Find(shorter, ".", 0).Some? {
          FindAppend(shorter, ".", ".", 0);
        }
      }
    } else {
      FindPrefix(shorter, ".", ".", 0);
      var rest := s[d + 1..];
      assert rest[|rest| - 1] == s[|s| - 1];
      DropFinalDot(rest);
      assert shorter[d + 1..] == rest[..|rest| - 1] && shorter[..d] == s[..d];
    }
  }

  lemma WithoutPortOfNormal(n: string, suffix: string)
    requires ValidHost(n) && (suffix == "" || (suffix[0] == ':' && IsPort(suffix[1..])))
    ensures WithoutPort(n + suffix) == Some(n)
  {
    hide IsPort, WithoutPort;
    if n[0] == '[' {
      AddressWithPort(n, suffix);
    } else {
      NameWithPort(n, suffix);
    }
  }

  lemma AddressWithPort(n: string, suffix: string)
    requires ValidHost(n) && n[0] == '[' && (suffix == "" || (suffix[0] == ':' && IsPort(suffix[1..])))
    ensures WithoutPort(n + suffix) == Some(n)
  {
    hide Find, ValidLabels, IsPort;
    var host, end := n + suffix, |n| - 1;
    assert host == "" + n[..end] + [']'] + suffix;
    assert Lacks(n[..end], ']');
    FindSeparator("", n[..end], suffix, ']');
    assert host[..end + 1] == n && host[end + 1..] == suffix && (suffix != "" ==> host[end + 2..] == suffix[1..]);
  }

  lemma NameWithPort(n: string, suffix: string)
    requires ValidHost(n) && n[0] != '[' && (suffix == "" || (suffix[0] == ':' && IsPort(suffix[1..])))
    ensures WithoutPort(n + suffix) == Some(n)
  {
    hide Find, FindLast, ValidLabels, IsPort;
    LabelChars(n);
    if suffix == "" {
      assert n + suffix == n;
      assert ':' !in n;
    } else {
      var port := suffix[1..];
      var host := n + ":" + port;
      assert n + suffix == host == "" + n + [':'] + port;
      PortLacksColon(port);
      assert Lacks(n, ':') by { assert forall i | 0 <= i < |n| :: n[i] in n; }
      FindSeparator("", n, port, ':');
      LastColon(n, port, FindLast(host, ':'));
      assert host[0] == n[0] && host[|n| + 1..] == port && host[..|n|] == n;
    }
  }

  lemma PortLacksColon(port: string)
    requires IsPort(port)
    ensures ':' !in port
  {
    forall i | 0 <= i < |port| ensures port[i] != ':' {
      assert DigitOf(10, port[i]).Some?;
    }
  }

  lemma LastColon(n: string, port: string, last: Option<nat>)
    requires ':' !in n && ':' !in port && last == FindLast(n + ":" + port, ':')
    ensures last == Some(|n|)
  {
    hide FindLast;
    var s := n + ":" + port;
    assert s[|n|] == ':' && s[|n|] in s;
    forall i | 0 <= i < |s| && i != |n| ensures s[i] != ':' {
      assert if i < |n| then s[i] in n else s[i] in port;
    }
  }

  /** A port does not matter, and normalising again changes nothing but a final dot: it gives the
  same host back exactly when the first pass left no dot at the end (it does after two dots). */
  lemma NormalizeAgain(header: string, port: string)
    requires NormalizeHost(header) != ""
    ensures var n := NormalizeHost(header);
            && NormalizeHost(n) == WithoutFinalDot(n)
            && (NormalizeHost(n) == n <==> n[|n| - 1] != '.')
            && (IsPort(port) ==> NormalizeHost(n + ":" + port) == NormalizeHost(n))
  {
    hide NormalizeHost, Find, IsPort;
    var n := NormalizeHost(header);
    NormalForm(header);
    assert n + "" == n;
    NormalizeNormal(n, "");
    if IsPort(port) {
      assert n + (":" + port) == n + ":" + port && (":" + port)[1..] == port;
      NormalizeNormal(n, ":" + port);
    }
  }

  lemma NormalizeNormal(n: string, suffix: string)
    requires ValidHost(n) && Lower(n) == n && (suffix == "" || (suffix[0] == ':' && IsPort(suffix[1..])))
    requires forall c :: c in n ==> !IsBlank(c)
    ensures NormalizeHost(n + suffix) == WithoutFinalDot(n)
  {
    hide Find, FindLast, Trim, WithoutPort, ValidLabels, NumeralValue;
    var s := n + suffix;
    assert n[0] in n && n[|n| - 1] in n;
    assert suffix != "" ==> DigitOf(10, suffix[1..][|suffix| - 2]).Some? && s[|s| - 1] == suffix[1..][|suffix| - 2];
    TrimmedStays(s);
    WithoutPortOfNormal(n, suffix);
    if n[0] != '[' && n[|n| - 1] == '.' {
      DropFinalDot(n);
    }
    LowerSlice(n, 0, |WithoutFinalDot(n)|);
  }

  /** A host that ends in two dots: each pass drops one of them. */
  lemma TwoDots()
    ensures NormalizeHost("a..") == "a." && NormalizeHost("a.") == "a"
  {
    hide Find, FindLast, Trim, ValidLabels, WithoutPort;
    TrimmedStays("a..");
    TrimmedStays("a.");
    NoPort("a..");
    NoPort("a.");
    OneLabel();
    assert WithoutFinalDot("a..") == "a." && WithoutFinalDot("a.") == "a";
    assert Lower("a.") == "a." && Lower("a") == "a";
  }

  lemma NoPort(host: string)
    requires host != "" && host[0] != '[' && ':' !in host
    ensures WithoutPort(host) == Some(host)
  {
    hide Find;
  }

  lemma OneLabel()
    ensures ValidLabels("a") && ValidLabels("a.")
  {
    assert "a." == "" + "a" + ['.'] + "" && "a" == "" + "a";
    FindSeparator("", "a", "", '.');
    FindNoSeparator("", "a", '.');
    assert "a."[..1] == "a" && "a."[2..] == "";
  }

  /** What follows a name and a colon is a port, or the whole is not a host. */
  lemma PortExactness(name: string, port: string)
    requires ValidHost(name) && Lower(name) == name && name[0] != '[' && Lacks(port, ':') && (forall c | c in port :: !IsBlank(c))
    ensures NormalizeHost(name + ":" + port) == if IsPort(port) then WithoutFinalDot(name) else ""
  {
    hide Find, FindLast, Trim, WithoutPort, ValidLabels, IsPort, Lower;
    LabelChars(name);
    if IsPort(port) {
      assert name + (":" + port) == name + ":" + port && (":" + port)[1..] == port;
      NormalizeNormal(name, ":" + port);
    } else {
      var s := name + ":" + port;
      assert name[0] in name && s[|s| - 1] == if port == "" then ':' else port[|port| - 1];
      TrimmedStays(s);
      NotAPort(name, port);
    }
  }

  lemma NotAPort(name: string, port: string)
    requires name != "" && name[0] != '[' && ':' !in name && Lacks(port, ':') && !IsPort(port)
    ensures WithoutPort(name + ":" + port).None?
  {
    hide Find, FindLast, IsPort;
    var s := name + ":" + port;
    assert Lacks(name, ':') by { assert forall i | 0 <= i < |name| :: name[i] in name; }
    assert s == "" + name + [':'] + port && s[0] == name[0] && s[|name| + 1..] == port;
    FindSeparator("", name, port, ':');
    assert ':' !in port;
    LastColon(name, port, FindLast(s, ':'));
  }
}
