/**
 * The small part of JavaScript's string and number behaviour that the
 * screens rely on: the whitespace class used by `\s`, `trim()` and
 * `parseInt`, `toLowerCase()`, `includes()`, integer-to-string conversion,
 * `padStart(2, '0')` and `parseInt` on decimal text.
 */
module Text {

  /** ECMAScript WhiteSpace and LineTerminator code points: the `\s` class,
      and what `trim()` and `parseInt` skip. */
  predicate IsSpace(c: char) {
    c == '\U{0009}' || c == '\U{000A}' || c == '\U{000B}' || c == '\U{000C}' ||
    c == '\U{000D}' || c == '\U{0020}' || c == '\U{00A0}' || c == '\U{1680}' ||
    ('\U{2000}' <= c <= '\U{200A}') || c == '\U{2028}' || c == '\U{2029}' ||
    c == '\U{202F}' || c == '\U{205F}' || c == '\U{3000}' || c == '\U{FEFF}'
  }

  predicate AllSpace(s: string) {
    forall i :: 0 <= i < |s| ==> IsSpace(s[i])
  }

  /** `trimStart()`: drop the leading whitespace. */
  function TrimStart(s: string): (r: string)
    ensures |r| <= |s| && r == s[|s| - |r|..]
    ensures r == [] || !IsSpace(r[0])
    ensures forall i :: 0 <= i < |s| - |r| ==> IsSpace(s[i])
  {
    if |s| > 0 && IsSpace(s[0]) then
      var r := TrimStart(s[1..]);
      assert s[1..][|s| - 1 - |r|..] == s[|s| - |r|..];
      assert forall i :: 0 < i < |s| - |r| ==> s[i] == s[1..][i - 1];
      r
    else s
  }

  /** `trimEnd()`: drop the trailing whitespace. */
  function TrimEnd(s: string): (r: string)
    ensures |r| <= |s| && r == s[..|r|]
    ensures r == [] || !IsSpace(r[|r| - 1])
    ensures forall i :: |r| <= i < |s| ==> IsSpace(s[i])
  {
    if |s| > 0 && IsSpace(s[|s| - 1]) then
      var r := TrimEnd(s[..|s| - 1]);
      assert s[..|s| - 1][..|r|] == s[..|r|];
      assert forall i :: |r| <= i < |s| - 1 ==> s[i] == s[..|s| - 1][i];
      r
    else s
  }

  /** `trim()`. */
  function Trim(s: string): string {
    TrimEnd(TrimStart(s))
  }

  /** Trimming the start leaves nothing exactly for an all-whitespace text:
      what remains starts with a non-space character of the text. */
  lemma TrimStartEmptyIff(s: string)
    ensures TrimStart(s) == [] <==> AllSpace(s)
  {
    var r := TrimStart(s);
    if r != [] {
      assert r[0] == s[|s| - |r|] && !IsSpace(s[|s| - |r|]);
    }
  }

  /** Trimming the end leaves nothing exactly for an all-whitespace text. */
  lemma TrimEndEmptyIff(s: string)
    ensures TrimEnd(s) == [] <==> AllSpace(s)
  {
    var r := TrimEnd(s);
    if r != [] {
      assert r[|r| - 1] == s[|r| - 1] && !IsSpace(s[|r| - 1]);
    }
  }

  /** `s.trim()` is empty exactly when every character of `s` is whitespace. */
  lemma TrimEmptyIff(s: string)
    ensures Trim(s) == "" <==> AllSpace(s)
  {
    var t := TrimStart(s);
    TrimStartEmptyIff(s);
    TrimEndEmptyIff(t);
  }

  /** `toLowerCase()` on one code point: Latin capitals and the Cyrillic
      capitals of the basic block (U+0400..U+042F). */
  function LowerChar(c: char): (r: char)
    ensures !IsSpace(c) ==> !IsSpace(r)
  {
    if 'A' <= c <= 'Z' then (c as int + 32) as char
    else if '\U{0410}' <= c <= '\U{042F}' then (c as int + 32) as char
    else if '\U{0400}' <= c <= '\U{040F}' then (c as int + 80) as char
    else c
  }

  function ToLower(s: string): (r: string)
    ensures |r| == |s|
    ensures forall i :: 0 <= i < |s| ==> r[i] == LowerChar(s[i])
  {
    if s == [] then [] else [LowerChar(s[0])] + ToLower(s[1..])
  }

  /** `s.includes(sub)`: `sub` occurs in `s` at some position. */
  predicate Includes(s: string, sub: string) {
    exists i :: 0 <= i <= |s| - |sub| && OccursAt(s, sub, i)
  }

  predicate OccursAt(s: string, sub: string, i: int)
    requires 0 <= i <= |s| - |sub|
  {
    s[i..i + |sub|] == sub
  }

  /** Case-insensitive `includes`, as the screens write it:
      `s.toLowerCase().includes(q.toLowerCase())`. */
  predicate IncludesIgnoringCase(s: string, q: string) {
    Includes(ToLower(s), ToLower(q))
  }

  lemma EmptyIsIncluded(s: string)
    ensures Includes(s, "")
  {
    assert OccursAt(s, "", 0);
  }

  predicate IsDigit(c: char) {
    '0' <= c <= '9'
  }

  predicate AllDigits(s: string) {
    forall i :: 0 <= i < |s| ==> IsDigit(s[i])
  }

  function DigitChar(d: int): (c: char)
    requires 0 <= d < 10
    ensures IsDigit(c) && c as int - '0' as int == d
  {
    ('0' as int + d) as char
  }

  /** The decimal numeral of a natural number, without leading zeros. */
  function NatToDigits(n: nat): (s: string)
    ensures |s| >= 1 && AllDigits(s)
    ensures |s| > 1 ==> s[0] != '0'
  {
    if n < 10 then [DigitChar(n)] else NatToDigits(n / 10) + [DigitChar(n % 10)]
  }

  /** `String(n)` / template interpolation for an integer. */
  function Show(n: int): string {
    if n < 0 then "-" + NatToDigits(-n) else NatToDigits(n)
  }

  /** The value of a string of decimal digits. */
  function DigitsValue(s: string): (v: nat)
    requires AllDigits(s)
  {
    if s == [] then 0 else DigitsValue(s[..|s| - 1]) * 10 + (s[|s| - 1] as int - '0' as int)
  }

  lemma {:induction false} DigitsRoundTrip(n: nat)
    ensures DigitsValue(NatToDigits(n)) == n
  {
    if n >= 10 {
      var s := NatToDigits(n);
      assert s[..|s| - 1] == NatToDigits(n / 10);
      DigitsRoundTrip(n / 10);
    }
  }

  /** Digits that do not start with a zero have a positive value. */
  lemma {:induction false} LeadingNonZero(s: string)
    requires |s| >= 1 && AllDigits(s) && s[0] != '0'
    ensures DigitsValue(s) >= 1
  {
    if |s| > 1 {
      LeadingNonZero(s[..|s| - 1]);
    }
  }

  /** Digits without a leading zero are the numeral of their own value:
      `NatToDigits` is onto such texts. */
  lemma {:induction false} DigitsCanonical(s: string)
    requires |s| >= 1 && AllDigits(s) && (|s| == 1 || s[0] != '0')
    ensures NatToDigits(DigitsValue(s)) == s
  {
    if |s| > 1 {
      var init := s[..|s| - 1];
      LeadingNonZero(init);
      DigitsCanonical(init);
      assert s == init + [s[|s| - 1]];
    }
  }

  /** Length of the longest prefix of `s` made of decimal digits. */
  function LeadingDigits(s: string): (k: nat)
    ensures k <= |s| && AllDigits(s[..k])
    ensures k < |s| ==> !IsDigit(s[k])
  {
    if s != [] && IsDigit(s[0]) then
      var k := 1 + LeadingDigits(s[1..]);
      assert s[..k] == [s[0]] + s[1..][..k - 1];
      k
    else 0
  }

  lemma {:induction false} LeadingDigitsOfDigits(s: string)
    requires AllDigits(s)
    ensures LeadingDigits(s) == |s|
  {
    if s != [] {
      LeadingDigitsOfDigits(s[1..]);
    }
  }

  /** A JavaScript number produced by `parseInt`: an integer or NaN. */
  datatype ParsedInt = Int(value: int) | NaN

  /** `parseInt(s)` with no radix on decimal text: skip leading whitespace,
      take an optional sign, then the longest run of digits; NaN without one. */
  function ParseInt(s: string): ParsedInt {
    ParseSigned(TrimStart(s))
  }

  /** `parseInt` on text with no leading whitespace: NaN exactly when no
      digit follows the optional sign. */
  function ParseSigned(t: string): (r: ParsedInt)
    ensures r.NaN? <==> (var u := if t != [] && (t[0] == '-' || t[0] == '+') then t[1..] else t;
                         u == [] || !IsDigit(u[0]))
  {
    if t != [] && t[0] == '-' then Negate(ParseUnsigned(t[1..]))
    else if t != [] && t[0] == '+' then ParseUnsigned(t[1..])
    else ParseUnsigned(t)
  }

  function Negate(r: ParsedInt): ParsedInt {
    if r.Int? then Int(0 - r.value) else NaN
  }

  /** The value of the leading run of digits, NaN when there is none. */
  function ParseUnsigned(u: string): (r: ParsedInt)
    ensures r.NaN? <==> u == [] || !IsDigit(u[0])
  {
    var k := LeadingDigits(u);
    if k == 0 then NaN else Int(DigitsValue(u[..k]))
  }

  /** Text that starts with a digit or a sign has nothing to trim. */
  lemma TrimStartKeeps(s: string)
    requires s != [] && (IsDigit(s[0]) || s[0] == '-')
    ensures TrimStart(s) == s
  {
    assert !IsSpace(s[0]);
  }

  lemma ParseUnsignedDigits(d: string)
    requires AllDigits(d) && |d| >= 1
    ensures ParseUnsigned(d) == Int(DigitsValue(d))
  {
    LeadingDigitsOfDigits(d);
    assert d[..|d|] == d;
  }

  lemma ParseDigits(d: string)
    requires |d| >= 1 && AllDigits(d)
    ensures ParseInt(d) == Int(DigitsValue(d))
  {
    assert IsDigit(d[0]);
    TrimStartKeeps(d);
    ParseUnsignedDigits(d);
  }

  lemma ParseSignedDigits(d: string)
    requires |d| >= 1 && AllDigits(d)
    ensures ParseInt("-" + d) == Int(0 - DigitsValue(d))
  {
    var s := "-" + d;
    assert s[1..] == d;
    assert ParseInt(s) == Int(0 - DigitsValue(s[1..])) by {
      ParseMinus(s);
    }
  }

  /** A minus sign followed by digits parses to the negated value. */
  lemma ParseMinus(s: string)
    requires |s| >= 2 && s[0] == '-' && AllDigits(s[1..])
    ensures ParseInt(s) == Int(0 - DigitsValue(s[1..]))
  {
    TrimStartKeeps(s);
    ParseUnsignedDigits(s[1..]);
  }

  lemma ParseNatDigits(n: nat)
    ensures ParseInt(NatToDigits(n)) == Int(n)
  {
    DigitsRoundTrip(n);
    ParseDigits(NatToDigits(n));
  }

  lemma ParseNegatedDigits(n: nat)
    ensures ParseInt("-" + NatToDigits(n)) == Int(0 - n)
  {
    DigitsRoundTrip(n);
    ParseSignedDigits(NatToDigits(n));
  }

  /** Reading back what `Show` writes gives the number again. */
  lemma ParseShow(n: int)
    ensures ParseInt(Show(n)) == Int(n)
  {
    var s := Show(n);
    if n < 0 {
      var m: nat := -n;
      assert s == "-" + NatToDigits(m);
      ParseNegatedDigits(m);
    } else {
      assert s == NatToDigits(n);
      ParseNatDigits(n);
    }
  }

  /** `s.padStart(2, '0')`. */
  function PadTwo(s: string): (r: string)
    ensures |s| >= 2 ==> r == s
    ensures |s| < 2 ==> |r| == 2 && r[2 - |s|..] == s && AllDigits(r[..2 - |s|])
    ensures forall i :: 0 <= i < 2 - |s| ==> r[i] == '0'
  {
    if |s| >= 2 then s else if |s| == 1 then "0" + s else "00"
  }
}
