/** Octet strings as the HTTP code sees them.

An octet is modelled as a `char`; every statement holds for all characters, hence for the
256 of them that are octets. `std::string::find` is `Find`; the number parsers keep the
64-bit overflow guards of the original. */
module Text {

  datatype Option<+T> = None | Some(value: T)

  datatype Result<+T, +E> = Ok(value: T) | Err(error: E)

  const SIZE_MAX: nat := 0xFFFF_FFFF_FFFF_FFFF

  const CRLF: string := "\r\n"
  const CRLF_CRLF: string := "\r\n\r\n"

  /** The octets of several pieces, one after the other. */
  function Flatten(fragments: seq<string>): string {
    if fragments == [] then "" else Flatten(fragments[..|fragments| - 1]) + fragments[|fragments| - 1]
  }

  // ---------------------------------------------------------------- searching

  predicate At(s: string, pattern: string, i: int) {
    0 <= i && i + |pattern| <= |s| && s[i..i + |pattern|] == pattern
  }

  /** First occurrence of `pattern` at or after `from`. */
  function Find(s: string, pattern: string, from: nat): (r: Option<nat>)
    ensures r.Some? ==> from <= r.value && At(s, pattern, r.value)
    ensures r.Some? ==> forall k | from <= k < r.value :: !At(s, pattern, k)
    ensures r.None? ==> forall k | from <= k :: !At(s, pattern, k)
    decreases |s| - from
  {
    if from + |pattern| > |s| then None
    else if At(s, pattern, from) then Some(from)
    else Find(s, pattern, from + 1)
  }

  lemma FindFits(s: string, pattern: string, from: nat)
    ensures var r := Find(s, pattern, from); r.Some? ==> r.value + |pattern| <= |s|
  {
  }

  /** `i` is what `Find` returns as soon as it is an occurrence with none before it. */
  lemma FindIs(s: string, pattern: string, from: nat, i: nat)
    requires from <= i && At(s, pattern, i)
    requires forall k | from <= k < i :: !At(s, pattern, k)
    ensures Find(s, pattern, from) == Some(i)
  {
    var r := Find(s, pattern, from);
    assert r.Some?;
    assert !(r.value < i) && !(i < r.value);
  }

  /** Whether a pattern occurs at a place does not depend on what follows it. */
  lemma AtAppend(s: string, t: string, pattern: string, k: int)
    requires k + |pattern| <= |s|
    ensures At(s + t, pattern, k) == At(s, pattern, k)
  {
    if 0 <= k {
      assert (s + t)[k..k + |pattern|] == s[k..k + |pattern|];
    }
  }

  /** More input never moves an occurrence already found. */
  lemma FindAppend(s: string, t: string, pattern: string, from: nat)
    requires Find(s, pattern, from).Some?
    ensures Find(s + t, pattern, from) == Find(s, pattern, from)
  {
    var i := Find(s, pattern, from).value;
    AtAppend(s, t, pattern, i);
    forall k | from <= k < i ensures !At(s + t, pattern, k) {
      AtAppend(s, t, pattern, k);
    }
    FindIs(s + t, pattern, from, i);
  }

  /** An occurrence that more input brings reaches into the new part. */
  lemma FindAppendNew(s: string, t: string, pattern: string, from: nat)
    requires Find(s, pattern, from).None?
    ensures var r := Find(s + t, pattern, from); r.Some? ==> r.value + |pattern| > |s|
  {
    var r := Find(s + t, pattern, from);
    if r.Some? && r.value + |pattern| <= |s| {
      AtAppend(s, t, pattern, r.value);
    }
  }

  /** Input cut after an occurrence still has it as its first one. */
  lemma FindPrefix(s: string, t: string, pattern: string, from: nat)
    requires var r := Find(s + t, pattern, from); r.Some? && r.value + |pattern| <= |s|
    ensures Find(s, pattern, from) == Find(s + t, pattern, from)
  {
    if Find(s, pattern, from).None? {
      FindAppendNew(s, t, pattern, from);
    } else {
      FindAppend(s, t, pattern, from);
    }
  }

  /** Searching a buffer from `from` on is searching what lies there. */
  lemma {:induction false} FindTail(s: string, from: nat, pattern: string, k: nat)
    requires from + k <= |s|
    ensures var r := Find(s[from..], pattern, k);
            Find(s, pattern, from + k) == if r.Some? then Some(r.value + from) else None
    decreases |s| - from - k
  {
    if from + k + |pattern| <= |s| {
      assert s[from..][k..k + |pattern|] == s[from + k..from + k + |pattern|];
      if !At(s, pattern, from + k) {
        if from + k + 1 <= |s| {
          FindTail(s, from, pattern, k + 1);
        }
      }
    }
  }

  lemma AtFirst(s: string, pattern: string, k: int)
    requires pattern != ""
    ensures At(s, pattern, k) ==> s[k] == pattern[0]
  {
    assert At(s, pattern, k) ==> s[k..k + |pattern|][0] == s[k];
  }

  lemma AtOctet(s: string, pattern: string, k: int, j: nat)
    requires j < |pattern| && 0 <= k + j < |s|
    ensures At(s, pattern, k) ==> s[k + j] == pattern[j]
  {
    if At(s, pattern, k) {
      assert s[k..k + |pattern|][j] == s[k + j];
    }
  }

  predicate Lacks(s: string, c: char) {
    forall i | 0 <= i < |s| :: s[i] != c
  }

  /** The first CRLF of `line + CRLF + rest`, when the line has no CR. */
  lemma FindLineEnd(before: string, line: string, rest: string)
    requires Lacks(line, '\r')
    ensures Find(before + line + CRLF + rest, CRLF, |before|) == Some(|before| + |line|)
  {
    var s := before + line + CRLF + rest;
    assert s[|before| + |line|..|before| + |line| + 2] == CRLF;
    forall k | |before| <= k < |before| + |line| ensures !At(s, CRLF, k) {
      assert s[k] == line[k - |before|];
      AtFirst(s, CRLF, k);
    }
    FindIs(s, CRLF, |before|, |before| + |line|);
  }

  /** A separator that does not occur in the piece before it is found at the piece's end. */
  lemma FindSeparator(before: string, piece: string, rest: string, separator: char)
    requires Lacks(piece, separator)
    ensures Find(before + piece + [separator] + rest, [separator], |before|) == Some(|before| + |piece|)
  {
    var s := before + piece + [separator] + rest;
    assert s[|before| + |piece|..|before| + |piece| + 1] == [separator];
    forall k | |before| <= k < |before| + |piece| ensures !At(s, [separator], k) {
      assert s[k] == piece[k - |before|];
      AtFirst(s, [separator], k);
    }
    FindIs(s, [separator], |before|, |before| + |piece|);
  }

  lemma FindNoSeparator(before: string, piece: string, separator: char)
    requires Lacks(piece, separator)
    ensures Find(before + piece, [separator], |before|).None?
  {
    var s := before + piece;
    forall k | |before| <= k < |s| ensures !At(s, [separator], k) {
      AtFirst(s, [separator], k);
      assert s[k] == piece[k - |before|];
    }
  }

  lemma LacksAppend(a: string, b: string, c: char)
    requires Lacks(a, c) && Lacks(b, c)
    ensures Lacks(a + b, c)
  {
  }

  // ---------------------------------------------------------------- character classes

  predicate IsDigit(c: char) { '0' <= c <= '9' }

  /** RFC 9110, section 5.6.2. */
  predicate IsTokenChar(c: char) {
    'A' <= c <= 'Z' || 'a' <= c <= 'z' || IsDigit(c) ||
    c in {'!', '#', '$', '%', '&', '\'', '*', '+', '-', '.', '^', '_', '`', '|', '~'}
  }

  predicate IsFieldValueChar(c: char) { c == '\t' || (' ' <= c && c != 127 as char) }

  predicate IsTargetChar(c: char) { ' ' < c && c != 127 as char }

  /** A token is made of these 77 characters (RFC 9110, section 5.6.2). */
  lemma TokenCharacters(c: char)
    ensures IsTokenChar(c) <==> c in MARKS || c in UPPER_LETTERS || c in LOWER_LETTERS || c in "0123456789"
  {
    AmongMarks(c);
    AmongLetters(c);
    if IsDigit(c) {
      assert "0123456789"[c as int - 48] == c;
    }
  }

  lemma AmongMarks(c: char)
    ensures c in MARKS <==> c in {'!', '#', '$', '%', '&', '\'', '*', '+', '-', '.', '^', '_', '`', '|', '~'}
  {
  }

  lemma UpperRun()
    ensures |UPPER_LETTERS| == 26 && forall i | 0 <= i < 26 :: UPPER_LETTERS[i] as int == 65 + i
  {
  }

  lemma LowerRun()
    ensures |LOWER_LETTERS| == 26 && forall i | 0 <= i < 26 :: LOWER_LETTERS[i] as int == 97 + i
  {
  }

  lemma AmongRun(letters: string, first: nat, c: char)
    requires |letters| == 26 && forall i | 0 <= i < 26 :: letters[i] as int == first + i
    ensures c in letters <==> first <= c as int < first + 26
  {
    if first <= c as int < first + 26 {
      assert letters[c as int - first] == c;
    }
  }

  lemma AmongLetters(c: char)
    ensures c in UPPER_LETTERS <==> 65 <= c as int <= 90
    ensures c in LOWER_LETTERS <==> 97 <= c as int <= 122
  {
    UpperRun();
    LowerRun();
    AmongRun(UPPER_LETTERS, 65, c);
    AmongRun(LOWER_LETTERS, 97, c);
  }

  /** Values and targets have no controls but, in values, tabs; targets have no blanks either. */
  lemma ValueCharacters(c: char)
    ensures IsFieldValueChar(c) <==> c as int == 9 || 32 <= c as int <= 126 || c as int >= 128
    ensures IsTargetChar(c) <==> 33 <= c as int <= 126 || c as int >= 128
    ensures IsBlank(c) <==> c as int == 32 || c as int == 9
  {
  }

  /** Twenty-six letters have two cases; nothing else is changed. */
  lemma LetterCases(c: char)
    ensures forall i | 0 <= i < 26 :: LowerChar(UPPER_LETTERS[i]) == LOWER_LETTERS[i]
    ensures c !in UPPER_LETTERS ==> LowerChar(c) == c
  {
    AmongLetters(c);
    UpperRun();
    LowerRun();
  }

  const MARKS: string := "!#$%&'*+-.^_`|~"
  const UPPER_LETTERS: string := "ABCDEFGHIJKLMNOPQRSTUVWXYZ"
  const LOWER_LETTERS: string := "abcdefghijklmnopqrstuvwxyz"

  predicate AllToken(s: string) { forall i | 0 <= i < |s| :: IsTokenChar(s[i]) }

  predicate AllFieldValue(s: string) { forall i | 0 <= i < |s| :: IsFieldValueChar(s[i]) }

  predicate AllTarget(s: string) { forall i | 0 <= i < |s| :: IsTargetChar(s[i]) }

  predicate IsBlank(c: char) { c == ' ' || c == '\t' }

  function LowerChar(c: char): char {
    if 'A' <= c <= 'Z' then c + 32 as char else c
  }

  function Lower(s: string): (r: string)
    ensures |r| == |s|
    ensures forall i | 0 <= i < |s| :: r[i] == LowerChar(s[i])
  {
    seq(|s|, i requires 0 <= i < |s| => LowerChar(s[i]))
  }

  predicate EqualsIgnoreCase(a: string, b: string) { Lower(a) == Lower(b) }

  function TrimLeft(s: string): (r: string)
    ensures r != "" ==> !IsBlank(r[0])
    ensures |r| <= |s| && r == s[|s| - |r|..] && forall i | 0 <= i < |s| - |r| :: IsBlank(s[i])
  {
    if s != "" && IsBlank(s[0]) then
      var r := TrimLeft(s[1..]);
      assert s[1..][|s| - 1 - |r|..] == s[|s| - |r|..];
      assert forall i | 1 <= i < |s| - |r| :: s[i] == s[1..][i - 1];
      r
    else
      s
  }

  function TrimRight(s: string): (r: string)
    ensures r <= s
    ensures r != "" ==> !IsBlank(r[|r| - 1])
    ensures forall i | |r| <= i < |s| :: IsBlank(s[i])
  {
    if s != "" && IsBlank(s[|s| - 1]) then TrimRight(s[..|s| - 1]) else s
  }

  /** Optional white space removed from both ends (RFC 9110, section 5.6.3). */
  function Trim(s: string): string { TrimRight(TrimLeft(s)) }

  predicate Trimmed(s: string) { s != "" ==> !IsBlank(s[0]) && !IsBlank(s[|s| - 1]) }

  lemma TrimIsTrimmed(s: string)
    ensures Trimmed(Trim(s))
    ensures forall c :: c in Trim(s) ==> c in s
  {
    var t := TrimLeft(s);
    assert TrimRight(t) <= t;
  }

  /** Trimming gives back a trimmed value from the blank the header printer puts before it. */
  lemma TrimPrinted(s: string)
    requires Trimmed(s)
    ensures Trim(" " + s) == s
  {
    assert (" " + s)[1..] == s;
    if s != "" {
      assert TrimLeft(s) == s;
    }
    assert TrimLeft(" " + s) == TrimLeft(s) == s;
    assert TrimRight(s) == s;
  }

  predicate AllBlank(s: string) { forall i | 0 <= i < |s| :: IsBlank(s[i]) }

  lemma {:induction false} TrimLeftBlanks(blanks: string, s: string)
    requires AllBlank(blanks)
    ensures TrimLeft(blanks + s) == TrimLeft(s)
    decreases |blanks|
  {
    if blanks == "" {
      assert blanks + s == s;
    } else {
      assert (blanks + s)[0] == blanks[0] && (blanks + s)[1..] == blanks[1..] + s;
      TrimLeftBlanks(blanks[1..], s);
    }
  }

  lemma {:induction false} TrimRightBlanks(s: string, blanks: string)
    requires AllBlank(blanks)
    ensures TrimRight(s + blanks) == TrimRight(s)
    decreases |blanks|
  {
    var n := |blanks| - 1;
    if blanks == "" {
      assert s + blanks == s;
    } else {
      assert (s + blanks)[|s + blanks| - 1] == blanks[n] && (s + blanks)[..|s + blanks| - 1] == s + blanks[..n];
      TrimRightBlanks(s, blanks[..n]);
    }
  }

  lemma TrimLeftNone(s: string)
    requires s == "" || !IsBlank(s[0])
    ensures TrimLeft(s) == s
  {
  }

  lemma TrimRightNone(s: string)
    requires s == "" || !IsBlank(s[|s| - 1])
    ensures TrimRight(s) == s
  {
  }

  /** Trimming takes away any blanks around a value, and nothing of the value. */
  lemma TrimAround(before: string, s: string, after: string)
    requires AllBlank(before) && AllBlank(after) && Trimmed(s)
    ensures Trim(before + s + after) == s
  {
    hide TrimLeft, TrimRight, AllBlank, IsBlank;
    PutTogether(before, s, after);
    TrimLeftBlanks(before, s + after);
    if s == "" {
      TrimNothingLeft(after);
    } else {
      assert (s + after)[0] == s[0];
      TrimLeftNone(s + after);
      TrimRightBlanks(s, after);
      TrimRightNone(s);
    }
  }

  lemma TrimNothingLeft(blanks: string)
    requires AllBlank(blanks)
    ensures Trim("" + blanks) == ""
  {
    hide TrimLeft, TrimRight, AllBlank;
    TrimLeftBlanks(blanks, "");
    TrimLeftNone("");
    TrimRightNone("");
    assert "" + blanks == blanks + "";
  }

  lemma TrimmedStays(s: string)
    requires Trimmed(s)
    ensures Trim(s) == s
  {
    hide TrimLeft, TrimRight;
    TrimLeftNone(s);
    TrimRightNone(s);
  }

  /** What trimming takes away is blanks. */
  lemma TrimTakesBlanks(s: string) returns (before: string, after: string)
    ensures AllBlank(before) && AllBlank(after) && s == before + Trim(s) + after
  {
    hide TrimLeft, TrimRight;
    var left := TrimLeft(s);
    var right := TrimRight(left);
    var k := |s| - |left|;
    before, after := s[..k], left[|right|..];
    assert s == s[..k] + s[k..];
    assert left == right + after;
    PutTogether(before, right, after);
  }

  lemma PutTogether(a: string, b: string, c: string)
    ensures a + (b + c) == a + b + c
  {
  }

  // ---------------------------------------------------------------- numbers

  /** The value of a digit in radix 10 or 16. */
  function DigitOf(radix: nat, c: char): (r: Option<nat>)
    requires radix == 10 || radix == 16
    ensures r.Some? ==> r.value < radix
  {
    if '0' <= c <= '9' then Some(c as nat - '0' as nat)
    else if radix == 16 && 'a' <= c <= 'f' then Some(c as nat - 'a' as nat + 10)
    else if radix == 16 && 'A' <= c <= 'F' then Some(c as nat - 'A' as nat + 10)
    else None
  }

  predicate AllDigits(radix: nat, s: string)
    requires radix == 10 || radix == 16
  {
    forall i | 0 <= i < |s| :: DigitOf(radix, s[i]).Some?
  }

  /** The mathematical value of a numeral, unbounded. */
  function NumeralValue(radix: nat, s: string): nat
    requires radix == 10 || radix == 16
    requires AllDigits(radix, s)
  {
    if s == "" then 0
    else radix * NumeralValue(radix, s[..|s| - 1]) + DigitOf(radix, s[|s| - 1]).value
  }

  /** A size is a non-empty numeral whose value fits in 64 bits. */
  function SizeOf(radix: nat, s: string): Option<nat>
    requires radix == 10 || radix == 16
  {
    if s != "" && AllDigits(radix, s) && NumeralValue(radix, s) <= SIZE_MAX
    then Some(NumeralValue(radix, s))
    else None
  }

  lemma {:induction false} NumeralPrefix(radix: nat, s: string, n: nat)
    requires radix == 10 || radix == 16
    requires n <= |s| && AllDigits(radix, s)
    ensures NumeralValue(radix, s[..n]) <= NumeralValue(radix, s)
    decreases |s| - n
  {
    if n == |s| {
      assert s[..n] == s;
    } else {
      assert s[..n + 1][..n] == s[..n];
      NumeralPrefix(radix, s, n + 1);
    }
  }

  /** The accumulating loop with its overflow guard accepts exactly the numerals that fit. */
  method ParseSize(radix: nat, value: string) returns (r: Option<nat>)
    requires radix == 10 || radix == 16
    ensures r == SizeOf(radix, value)
  {
    if value == "" {
      return None;
    }
    var result := 0;
    for i := 0 to |value|
      invariant AllDigits(radix, value[..i])
      invariant result == NumeralValue(radix, value[..i]) <= SIZE_MAX
    {
      var digit := DigitOf(radix, value[i]);
      if digit.None? {
        return None;
      }
      assert value[..i + 1][..i] == value[..i];
      if result > (SIZE_MAX - digit.value) / radix {
        if AllDigits(radix, value) {
          NumeralPrefix(radix, value, i + 1);
        }
        return None;
      }
      result := result * radix + digit.value;
    }
    assert value[..|value|] == value;
    return Some(result);
  }

  /** `std::to_string` of an unsigned number. */
  function Decimal(n: nat): (s: string)
    ensures s != "" && AllDigits(10, s)
  {
    var d := ['0' + (n % 10) as char];
    if n < 10 then d else Decimal(n / 10) + d
  }

  /** The decimal parser inverts the decimal printer on every 64-bit size. */
  lemma {:induction false} DecimalRoundTrip(n: nat)
    ensures NumeralValue(10, Decimal(n)) == n
    ensures n <= SIZE_MAX ==> SizeOf(10, Decimal(n)) == Some(n)
  {
    var s := Decimal(n);
    if n < 10 {
      assert s[..|s| - 1] == "";
    } else {
      DecimalRoundTrip(n / 10);
      assert s[..|s| - 1] == Decimal(n / 10);
    }
  }

  /** A number of three digits and its digits. */
  lemma DecimalThree(n: nat)
    requires 100 <= n <= 999
    ensures |Decimal(n)| == 3 && IsDigit(Decimal(n)[0]) && IsDigit(Decimal(n)[1]) && IsDigit(Decimal(n)[2])
    ensures (Decimal(n)[0] as int - '0' as int) * 100 + (Decimal(n)[1] as int - '0' as int) * 10
            + (Decimal(n)[2] as int - '0' as int) == n
  {
    assert Decimal(n) == Decimal(n / 10) + ['0' + (n % 10) as char];
    assert Decimal(n / 10) == Decimal(n / 100) + ['0' + (n / 10 % 10) as char] by {
      assert n / 10 / 10 == n / 100;
    }
  }

  // ---------------------------------------------------------------- hexadecimal

  const LOWER_HEX: string := "0123456789abcdef"
  const UPPER_HEX: string := "0123456789ABCDEF"

  /** The digits of radix 16 are these sixteen, in either case, and of radix 10 the first ten. */
  lemma DigitExactness(c: char, d: nat)
    ensures DigitOf(16, c) == Some(d) <==> d < 16 && (c == LOWER_HEX[d] || c == UPPER_HEX[d])
    ensures DigitOf(10, c) == Some(d) <==> d < 10 && c == LOWER_HEX[d]
  {
  }

  /** A number printed in radix 16, with the letters of one case. */
  function Hexadecimal(n: nat, upper: bool): (s: string)
    ensures s != ""
  {
    var d := [if upper then UPPER_HEX[n % 16] else LOWER_HEX[n % 16]];
    if n < 16 then d else Hexadecimal(n / 16, upper) + d
  }

  /** The hexadecimal parser inverts the printer, in either case, on every 64-bit size. */
  lemma {:induction false} HexadecimalRoundTrip(n: nat, upper: bool)
    ensures AllDigits(16, Hexadecimal(n, upper)) && NumeralValue(16, Hexadecimal(n, upper)) == n
    ensures n <= SIZE_MAX ==> SizeOf(16, Hexadecimal(n, upper)) == Some(n)
  {
    var s := Hexadecimal(n, upper);
    DigitExactness(s[|s| - 1], n % 16);
    if n < 16 {
      assert s[..|s| - 1] == "";
    } else {
      HexadecimalRoundTrip(n / 16, upper);
      assert s[..|s| - 1] == Hexadecimal(n / 16, upper);
    }
  }

  function Zeros(n: nat): string { seq(n, _ => '0') }

  lemma LowerDigit(c: char)
    requires DigitOf(16, c).Some?
    ensures LowerChar(c) == LOWER_HEX[DigitOf(16, c).value]
  {
  }

  /** Every numeral of radix 16 is its value printed, but for letter case and leading zeros. */
  lemma {:induction false} HexadecimalIsPrinted(s: string) returns (zeros: nat)
    requires s != "" && AllDigits(16, s)
    ensures Lower(s) == Zeros(zeros) + Hexadecimal(NumeralValue(16, s), false)
    decreases |s|
  {
    hide AllDigits, DigitOf, Hexadecimal, NumeralValue, Lower;
    LastDigit(s);
    var before, c := s[..|s| - 1], s[|s| - 1];
    var d := DigitOf(16, c).value;
    LowerLast(s);
    LowerDigit(c);
    if before == "" {
      NoNumeral();
      HexadecimalStep(0, d, 0);
      return 0;
    }
    zeros := HexadecimalIsPrinted(before);
    var v := NumeralValue(16, before);
    HexadecimalStep(v, d, zeros);
    zeros := if v == 0 then zeros + 1 else zeros;
  }

  lemma NoNumeral()
    ensures NumeralValue(16, "") == 0 && Lower("") == ""
  {
  }

  lemma LowerLast(s: string)
    requires s != ""
    ensures Lower(s) == Lower(s[..|s| - 1]) + [LowerChar(s[|s| - 1])]
  {
  }

  lemma HexadecimalStep(v: nat, d: nat, zeros: nat)
    requires d < 16
    ensures Hexadecimal(d, false) == [LOWER_HEX[d]] && Zeros(0) + [LOWER_HEX[d]] == "" + [LOWER_HEX[d]]
    ensures Zeros(zeros) + Hexadecimal(v, false) + [LOWER_HEX[d]] ==
            Zeros(if v == 0 then zeros + 1 else zeros) + Hexadecimal(16 * v + d, false)
  {
    assert (16 * v + d) / 16 == v && (16 * v + d) % 16 == d;
    assert v == 0 ==> Zeros(zeros) + "0" == Zeros(zeros + 1);
  }

  lemma LastDigit(s: string)
    requires s != "" && AllDigits(16, s)
    ensures AllDigits(16, s[..|s| - 1]) && DigitOf(16, s[|s| - 1]).Some? && DigitOf(16, s[|s| - 1]).value < 16
    ensures NumeralValue(16, s) == 16 * NumeralValue(16, s[..|s| - 1]) + DigitOf(16, s[|s| - 1]).value
  {
  }
}
