/** `int.Parse` on the text the UI sends: optional surrounding white space,
    an optional sign, decimal digits, and a value that must fit in 32 bits. */
module Parsing {
  import opened Basics

  predicate IsWhite(c: char) {
    c == ' ' || c == '\t' || c == '\n' || c == '\r' || c == '\U{000B}' || c == '\U{000C}'
  }

  predicate IsDigit(c: char) { '0' <= c <= '9' }

  predicate AllDigits(s: string) { forall i :: 0 <= i < |s| ==> IsDigit(s[i]) }

  /** `s` without its leading and trailing white space. */
  function Trim(s: string): (r: string)
    ensures |r| <= |s|
    ensures r != [] ==> !IsWhite(r[0]) && !IsWhite(r[|r| - 1])
    ensures (s == [] || (!IsWhite(s[0]) && !IsWhite(s[|s| - 1]))) ==> r == s
    decreases |s|
  {
    if s == [] then s
    else if IsWhite(s[0]) then Trim(s[1..])
    else if IsWhite(s[|s| - 1]) then Trim(s[..|s| - 1])
    else s
  }

  /** The number a run of decimal digits denotes (most significant first). */
  function DigitsValue(s: string): (n: nat)
    requires AllDigits(s)
    decreases |s|
  {
    if s == [] then 0
    else DigitsValue(s[..|s| - 1]) * 10 + (s[|s| - 1] as int - '0' as int)
  }

  /** `int.Parse(s)`: text that is not an optionally signed run of digits is a
      format error; a well-formed number outside 32 bits is an overflow. */
  function ParseInt32(s: string): (r: Result<int>)
    ensures r.Ok? ==> InInt32(r.value)
    ensures r.Err? ==> r.error == FormatError || r.error == Overflow
  {
    var t := Trim(s);
    var negative := t != [] && t[0] == '-';
    var digits := if t != [] && (t[0] == '-' || t[0] == '+') then t[1..] else t;
    if digits == [] || !AllDigits(digits) then Err(FormatError)
    else
      var v: int := DigitsValue(digits);
      var n := if negative then -v else v;
      if InInt32(n) then Ok(n) else Err(Overflow)
  }

  function DigitChar(d: nat): char
    requires d < 10
  {
    ('0' as int + d) as char
  }

  /** Decimal digits of `n`, without leading zeros. */
  function NatToString(n: nat): (s: string)
    ensures s != [] && AllDigits(s)
    decreases n
  {
    if n < 10 then [DigitChar(n)] else NatToString(n / 10) + [DigitChar(n % 10)]
  }

  /** `n.ToString()`: a minus sign for negative numbers, then the digits. */
  function IntToString(n: int): string {
    if n < 0 then "-" + NatToString(-n) else NatToString(n)
  }

  lemma {:induction false} DigitsValueOfNatToString(n: nat)
    ensures DigitsValue(NatToString(n)) == n
    decreases n
  {
    if n >= 10 {
      var s := NatToString(n);
      assert s[..|s| - 1] == NatToString(n / 10);
      DigitsValueOfNatToString(n / 10);
    }
  }

  /** A run of digits parses to its value when that fits in 32 bits. */
  lemma ParseDigits(d: string)
    requires d != [] && AllDigits(d) && InInt32(DigitsValue(d))
    ensures ParseInt32(d) == Ok(DigitsValue(d))
  {
    assert IsDigit(d[0]) && IsDigit(d[|d| - 1]);
    assert Trim(d) == d;
  }

  /** A minus sign before a run of digits parses to the negated value when
      that fits in 32 bits. */
  lemma ParseNegatedDigits(d: string)
    requires d != [] && AllDigits(d) && InInt32(-(DigitsValue(d) as int))
    ensures ParseInt32("-" + d) == Ok(-(DigitsValue(d) as int))
  {
    var s := "-" + d;
    assert IsDigit(d[|d| - 1]) && s[|s| - 1] == d[|d| - 1];
    assert Trim(s) == s;
    assert s[0] == '-' && s[1..] == d;
  }

  /** Parsing the printed form of any 32-bit number gives the number back. */
  lemma ParseInt32RoundTrip(n: int)
    requires InInt32(n)
    ensures ParseInt32(IntToString(n)) == Ok(n)
  {
    if n < 0 {
      DigitsValueOfNatToString(-n);
      ParseNegatedDigits(NatToString(-n));
      assert IntToString(n) == "-" + NatToString(-n);
    } else {
      DigitsValueOfNatToString(n);
      ParseDigits(NatToString(n));
      assert IntToString(n) == NatToString(n);
    }
  }

  /** Text with a character other than white space, a leading sign and digits
      is rejected. */
  lemma ParseInt32RejectsLetters(s: string)
    requires Trim(s) != [] && 'a' <= Trim(s)[|Trim(s)| - 1] <= 'z'
    ensures ParseInt32(s) == Err(FormatError)
  {
    var t := Trim(s);
    var digits := if t[0] == '-' || t[0] == '+' then t[1..] else t;
    if digits != [] {
      assert digits[|digits| - 1] == t[|t| - 1];
    }
  }
}
