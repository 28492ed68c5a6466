/** The string operations the slices and the list view rely on: the regular
    expressions `/\d{4}/` and `/^\/works\//`, `Number.prototype.toString` on an
    integer and `Number.parseInt(s, 10)`. Characters are Unicode scalar values;
    `\d` in a JavaScript regular expression without the `u` flag matches the
    ASCII digits only. */
module Strings {
  import opened Options

  predicate IsDigit(c: char) {
    '0' <= c <= '9'
  }

  predicate AllDigits(s: string) {
    forall k :: 0 <= k < |s| ==> IsDigit(s[k])
  }

  function DigitValue(c: char): (d: nat)
    requires IsDigit(c)
    ensures d < 10
  {
    c as int - '0' as int
  }

  function DigitChar(d: nat): (c: char)
    requires d < 10
    ensures IsDigit(c) && DigitValue(c) == d
  {
    ('0' as int + d) as char
  }

  // ---------------------------------------------------------------------------
  // `s.match(/\d{4}/)?.[0]`: the first run of four consecutive digits

  /** Four ASCII digits start at index `i` of `s`. */
  predicate FourDigitsAt(s: string, i: int) {
    0 <= i && i + 4 <= |s| && IsDigit(s[i]) && IsDigit(s[i + 1]) && IsDigit(s[i + 2]) && IsDigit(s[i + 3])
  }

  /** The leftmost index at or after `from` where four digits start, as a
      regular-expression search scans from left to right. */
  function FindFourDigits(s: string, from: nat): (r: Option<nat>)
    decreases |s| - from
    ensures r.Some? ==> from <= r.value && FourDigitsAt(s, r.value)
    ensures r.Some? ==> forall j :: from <= j < r.value ==> !FourDigitsAt(s, j)
    ensures r.None? ==> forall j :: from <= j ==> !FourDigitsAt(s, j)
  {
    if |s| < from + 4 then None
    else if FourDigitsAt(s, from) then Some(from)
    else FindFourDigits(s, from + 1)
  }

  /** The text matched by `/\d{4}/` in `s`, if any. */
  function FirstFourDigitRun(s: string): (run: Option<string>)
    ensures run.Some? <==> exists i :: FourDigitsAt(s, i)
    ensures run.Some? ==> |run.value| == 4 && AllDigits(run.value)
    ensures run.Some? ==>
      exists i :: FourDigitsAt(s, i) && run.value == s[i..i + 4] && forall j :: 0 <= j < i ==> !FourDigitsAt(s, j)
  {
    match FindFourDigits(s, 0)
    case Some(i) => Some(s[i..i + 4])
    case None => None
  }

  // ---------------------------------------------------------------------------
  // `key.replace(/^\/works\//, '')`

  const WorksPrefix: string := "/works/"

  /** Removes one leading "/works/" from an Open Library key; any other key is
      returned as it is. */
  function StripWorksPrefix(key: string): (id: string)
    ensures WorksPrefix <= key ==> WorksPrefix + id == key
    ensures !(WorksPrefix <= key) ==> id == key
  {
    if WorksPrefix <= key then key[|WorksPrefix|..] else key
  }

  lemma StripWorksPrefixUndoesPrefix(id: string)
    ensures StripWorksPrefix(WorksPrefix + id) == id
  {
    assert WorksPrefix <= WorksPrefix + id;
  }

  // ---------------------------------------------------------------------------
  // `Number.prototype.toString()` on an integer

  /** The decimal digits of `n`, most significant first, without leading zeros. */
  function NatToDigits(n: nat): (s: string)
    decreases n
    ensures |s| >= 1 && AllDigits(s)
    ensures s[0] == '0' ==> n == 0
  {
    if n < 10 then [DigitChar(n)] else NatToDigits(n / 10) + [DigitChar(n % 10)]
  }

  /** How JavaScript prints an integral number: an optional minus sign, then
      the digits. (Magnitudes from 10^21 on are printed in exponent form; they
      are not modelled.) */
  function IntToDecimal(n: int): (s: string)
    ensures |s| >= 1
    ensures s[0] == '-' <==> n < 0
    ensures n < 0 ==> s[1..] == NatToDigits(-n)
    ensures n >= 0 ==> s == NatToDigits(n)
  {
    if n < 0 then "-" + NatToDigits(-n) else NatToDigits(n)
  }

  /** The value of a string of decimal digits, read from left to right. */
  function DigitsValue(s: string): (n: nat)
    requires AllDigits(s)
    decreases |s|
  {
    if s == [] then 0 else DigitsValue(s[..|s| - 1]) * 10 + DigitValue(s[|s| - 1])
  }

  lemma {:induction false} DigitsValueOfNatToDigits(n: nat)
    decreases n
    ensures DigitsValue(NatToDigits(n)) == n
  {
    if n >= 10 {
      var s := NatToDigits(n);
      assert s[..|s| - 1] == NatToDigits(n / 10);
      DigitsValueOfNatToDigits(n / 10);
    }
  }

  // ---------------------------------------------------------------------------
  // `Number.parseInt(s, 10)`

  /** The characters JavaScript's string-to-number grammar skips as leading
      white space: the WhiteSpace and LineTerminator code points. */
  predicate IsJsWhiteSpace(c: char) {
    c == '\t' || c == '\n' || c == '\U{000B}' || c == '\U{000C}' || c == '\r' || c == ' '
    || c == '\U{00A0}' || c == '\U{1680}' || ('\U{2000}' <= c <= '\U{200A}')
    || c == '\U{2028}' || c == '\U{2029}' || c == '\U{202F}' || c == '\U{205F}'
    || c == '\U{3000}' || c == '\U{FEFF}'
  }

  function TrimStart(s: string): (t: string)
    decreases |s|
    ensures |t| <= |s| && t == s[|s| - |t|..]
    ensures forall k :: 0 <= k < |s| - |t| ==> IsJsWhiteSpace(s[k])
    ensures t == [] || !IsJsWhiteSpace(t[0])
  {
    if s != [] && IsJsWhiteSpace(s[0]) then TrimStart(s[1..]) else s
  }

  /** The longest prefix of `s` made of decimal digits. */
  function LeadingDigits(s: string): (d: string)
    decreases |s|
    ensures d <= s && AllDigits(d)
    ensures |d| == |s| || !IsDigit(s[|d|])
  {
    if s == [] || !IsDigit(s[0]) then [] else [s[0]] + LeadingDigits(s[1..])
  }

  /** What `Number.parseInt` reads after the white space: the text after one
      optional sign character. */
  function Unsigned(t: string): (u: string)
    ensures t != [] && (t[0] == '-' || t[0] == '+') ==> u == t[1..]
    ensures t == [] || (t[0] != '-' && t[0] != '+') ==> u == t
  {
    if t != [] && (t[0] == '-' || t[0] == '+') then t[1..] else t
  }

  /** `Number.parseInt(s, 10)`, with `NaN` as `None`: skip leading white space,
      take one optional sign, then the longest run of digits; no digits means
      `NaN`. The result is an unbounded integer (see README: large values). */
  function ParseInt(s: string): (r: Option<int>)
    ensures r.Some? <==> LeadingDigits(Unsigned(TrimStart(s))) != []
    ensures r.Some? && TrimStart(s)[0] != '-' ==> r.value == DigitsValue(LeadingDigits(Unsigned(TrimStart(s))))
    ensures r.Some? && TrimStart(s)[0] == '-' ==> r.value == -(DigitsValue(LeadingDigits(Unsigned(TrimStart(s)))) as int)
  {
    var t := TrimStart(s);
    var digits := LeadingDigits(Unsigned(t));
    if digits == [] then None
    else if t[0] == '-' then Some(-(DigitsValue(digits) as int))
    else Some(DigitsValue(digits))
  }

  lemma {:induction false} LeadingDigitsOfDigits(s: string, rest: string)
    requires AllDigits(s)
    requires rest == [] || !IsDigit(rest[0])
    decreases |s|
    ensures LeadingDigits(s + rest) == s
  {
    if s != [] {
      assert (s + rest)[1..] == s[1..] + rest;
      LeadingDigitsOfDigits(s[1..], rest);
    } else {
      assert s + rest == rest;
    }
  }

  /** Reading a string of digits followed by a non-digit gives the digits' value. */
  lemma ParseIntOfDigits(s: string, rest: string)
    requires s != [] && AllDigits(s)
    requires rest == [] || !IsDigit(rest[0])
    ensures ParseInt(s + rest) == Some(DigitsValue(s))
  {
    var t := s + rest;
    assert t[0] == s[0];
    assert !IsJsWhiteSpace(t[0]) && t[0] != '-' && t[0] != '+';
    assert TrimStart(t) == t;
    assert Unsigned(t) == t;
    LeadingDigitsOfDigits(s, rest);
  }

  /** A minus sign followed by digits reads as the negated digits' value. */
  lemma ParseIntOfNegatedDigits(d: string)
    requires d != [] && AllDigits(d)
    ensures ParseInt("-" + d) == Some(-(DigitsValue(d) as int))
  {
    var t := "-" + d;
    assert t[0] == '-';
    assert !IsJsWhiteSpace(t[0]);
    assert TrimStart(t) == t;
    assert Unsigned(t) == d;
    LeadingDigitsOfDigits(d, []);
    assert d + [] == d;
  }

  lemma ParseIntOfNaturalDecimal(n: nat)
    ensures ParseInt(NatToDigits(n)) == Some(n)
  {
    var d := NatToDigits(n);
    assert d + [] == d;
    ParseIntOfDigits(d, []);
    DigitsValueOfNatToDigits(n);
  }

  lemma ParseIntOfNegativeDecimal(n: nat)
    ensures ParseInt("-" + NatToDigits(n)) == Some(-(n as int))
  {
    ParseIntOfNegatedDigits(NatToDigits(n));
    DigitsValueOfNatToDigits(n);
  }

  /** A negative integer prints as a minus sign and the digits of its
      magnitude. */
  lemma NegativeDecimal(n: int)
    requires n < 0
    ensures IntToDecimal(n) == "-" + NatToDigits(-n)
  {
  }

  /** `Number.parseInt` reads back every integer JavaScript prints. */
  lemma ParseIntOfDecimal(n: int)
    ensures ParseInt(IntToDecimal(n)) == Some(n)
  {
    if n < 0 {
      NegativeDecimal(n);
      ParseIntOfNegativeDecimal(-n);
    } else {
      ParseIntOfNaturalDecimal(n);
    }
  }

  /** Distinct integers print differently. */
  lemma IntToDecimalInjective(a: int, b: int)
    requires IntToDecimal(a) == IntToDecimal(b)
    ensures a == b
  {
    ParseIntOfDecimal(a);
    ParseIntOfDecimal(b);
  }
}
