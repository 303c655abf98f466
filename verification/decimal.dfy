/** Decimal rendering and parsing of integers, as `str(n)`, `f"{s:02d}"` and `int(s)` do. */
module Decimal {
  import opened Wrappers

  predicate IsDigit(c: char) {
    '0' <= c <= '9'
  }

  /** `str.isdigit()` restricted to ASCII digits: non-empty and every character a digit. */
  predicate IsDigits(s: string) {
    |s| > 0 && forall i :: 0 <= i < |s| ==> IsDigit(s[i])
  }

  function DigitValue(c: char): (d: nat)
    requires IsDigit(c)
    ensures d < 10
  {
    c as int - '0' as int
  }

  function DigitChar(d: nat): (c: char)
    requires d < 10
    ensures IsDigit(c) && DigitValue(c) == d
  {
    ('0' as int + d) as char
  }

  /** `str(n)` for a natural number: shortest decimal form, no sign. */
  function NatToString(n: nat): (s: string)
    ensures IsDigits(s)
    ensures |s| == 1 <==> n < 10
    // no leading zero: "0" is the only rendering that starts with one
    ensures s[0] == '0' ==> n == 0
    decreases n
  {
    if n < 10 then [DigitChar(n)] else NatToString(n / 10) + [DigitChar(n % 10)]
  }

  /** `int(s)` for a digit string; leading zeros are allowed, as in Python. */
  function Value(s: string): nat
    requires forall i :: 0 <= i < |s| ==> IsDigit(s[i])
  {
    if |s| == 0 then 0 else Value(s[..|s| - 1]) * 10 + DigitValue(s[|s| - 1])
  }

  /** `int(s)` for a decimal integer with an optional leading '-'; anything else is None. */
  function ParseInt(s: string): Option<int> {
    if |s| > 0 && s[0] == '-' && IsDigits(s[1..]) then Some(-(Value(s[1..]) as int))
    else if IsDigits(s) then Some(Value(s))
    else None
  }

  /** `str(i)` for any integer: a leading '-' exactly for negatives, then digits; it parses back to `i`. */
  function IntToString(i: int): (s: string)
    ensures |s| > 0 && (s[0] == '-' <==> i < 0)
    ensures forall k :: 0 < k < |s| ==> IsDigit(s[k])
    ensures ParseInt(s) == Some(i)
    // canonical: the first digit is '0' only for zero itself
    ensures i != 0 ==> s[if i < 0 then 1 else 0] != '0'
    ensures i == 0 ==> s == "0"
  {
    var n: nat := if i < 0 then -i else i;
    ValueOfNatToString(n);
    var digits := NatToString(n);
    if i < 0 then
      assert ("-" + digits)[1..] == digits;
      "-" + digits
    else digits
  }

  /** `f"{s:02d}"` for 0 <= s < 100: exactly two digits, zero-padded. */
  function TwoDigits(s: nat): (r: string)
    requires s < 100
    ensures |r| == 2 && IsDigits(r) && Value(r) == s
  {
    var r := [DigitChar(s / 10), DigitChar(s % 10)];
    assert r[..1][..0] == [] && Value(r[..1]) == s / 10;
    assert Value(r) == (s / 10) * 10 + s % 10;
    r
  }

  /** Leading zeros do not change the value: `int("007") == 7`. */
  lemma {:induction false} ValueLeadingZero(s: string)
    requires forall i :: 0 <= i < |s| ==> IsDigit(s[i])
    ensures Value("0" + s) == Value(s)
    decreases |s|
  {
    if |s| > 0 {
      var t := "0" + s;
      assert t[..|t| - 1] == "0" + s[..|s| - 1];
      ValueLeadingZero(s[..|s| - 1]);
    }
  }

  /** Parsing undoes rendering. */
  lemma {:induction false} ValueOfNatToString(n: nat)
    ensures Value(NatToString(n)) == n
    decreases n
  {
    if n >= 10 {
      var s := NatToString(n);
      assert s[..|s| - 1] == NatToString(n / 10);
      ValueOfNatToString(n / 10);
    }
  }
}
