/**
 * Decimal text of integers as the C and C++ libraries produce and read it:
 * std::to_string, and strtol as used by std::stoi, std::stoll and atoi.
 */
module Decimal {
  import opened Wrappers
  import opened PropertyTypes

  predicate IsDigit(c: char) { '0' <= c <= '9' }

  /** isspace in the C locale: blank, tab, newline, vertical tab, form feed, carriage return. */
  predicate IsSpace(c: char) { c == ' ' || '\t' <= c <= '\r' }

  predicate AllDigits(s: string) { forall i :: 0 <= i < |s| ==> IsDigit(s[i]) }

  function DigitChar(d: nat): (c: char)
    requires d < 10
    ensures IsDigit(c) && c as int - '0' as int == d
  {
    ('0' as int + d) as char
  }

  /** The digits of n, most significant first, with no leading zero. */
  function Digits(n: nat): (s: string)
    ensures |s| > 0 && AllDigits(s)
  {
    if n < 10 then [DigitChar(n)] else Digits(n / 10) + [DigitChar(n % 10)]
  }

  /** std::to_string of an integer: a minus sign for a negative value, then the digits of its magnitude. */
  function ToDecimal(n: int): (s: string)
    ensures |s| > 0 && (s[0] == '-' || IsDigit(s[0]))
    ensures forall i :: 0 <= i < |s| ==> s[i] != '\0'
  {
    if n < 0 then "-" + Digits(-n) else Digits(n)
  }

  /** The number a string of digits denotes. */
  function DigitsValue(s: string): nat
    requires AllDigits(s)
  {
    if |s| == 0 then 0 else DigitsValue(s[..|s| - 1]) * 10 + (s[|s| - 1] as int - '0' as int)
  }

  /** The length of the longest prefix of s made of digits. */
  function DigitRun(s: string): (k: nat)
    ensures k <= |s| && AllDigits(s[..k])
    ensures k < |s| ==> !IsDigit(s[k])
  {
    if |s| == 0 || !IsDigit(s[0]) then 0 else 1 + DigitRun(s[1..])
  }

  /** The length of the longest prefix of s made of white space. */
  function SpaceRun(s: string): (k: nat)
    ensures k <= |s|
    ensures forall i :: 0 <= i < k ==> IsSpace(s[i])
    ensures k < |s| ==> !IsSpace(s[k])
  {
    if |s| == 0 || !IsSpace(s[0]) then 0 else 1 + SpaceRun(s[1..])
  }

  /**
   * What strtol(s, &end, 10) converts: leading white space, an optional sign,
   * then the longest run of digits; None when no digit follows (no conversion).
   * The value is the mathematical one; range checks belong to the callers.
   */
  function ParseInteger(s: string): Option<int>
  {
    var t := s[SpaceRun(s)..];
    var signed := |t| > 0 && (t[0] == '-' || t[0] == '+');
    var u := if signed then t[1..] else t;
    var k := DigitRun(u);
    if k == 0 then None
    else
      var magnitude: int := DigitsValue(u[..k]);
      Some(if signed && t[0] == '-' then -magnitude else magnitude)
  }

  /** std::stoi: None where it throws (no conversion, or a value outside int). */
  function Stoi(s: string): Option<int32>
  {
    match ParseInteger(s)
    case Some(n) => if -0x8000_0000 <= n < 0x8000_0000 then Some(n) else None
    case None => None
  }

  /** std::stoll: None where it throws (no conversion, or a value outside long long). */
  function Stoll(s: string): Option<int64>
  {
    match ParseInteger(s)
    case Some(n) => if -0x8000_0000_0000_0000 <= n < 0x8000_0000_0000_0000 then Some(n) else None
    case None => None
  }

  /** atoi: zero when nothing converts. */
  function Atoi(s: string): int
  {
    match ParseInteger(s)
    case Some(n) => n
    case None => 0
  }

  lemma {:induction false} DigitsValueOf(n: nat)
    ensures DigitsValue(Digits(n)) == n
  {
    if n >= 10 {
      var p := Digits(n / 10);
      var s := p + [DigitChar(n % 10)];
      assert s[..|s| - 1] == p;
      DigitsValueOf(n / 10);
    }
  }

  /** strtol reads back exactly what std::to_string writes. */
  lemma ParseToDecimal(n: int)
    ensures ParseInteger(ToDecimal(n)) == Some(n)
  {
    var s := ToDecimal(n);
    assert SpaceRun(s) == 0;
    assert s[0..] == s;
    var m := if n < 0 then -n else n;
    var d := Digits(m);
    DigitsValueOf(m);
    assert DigitRun(d) == |d|;
    assert d[..|d|] == d;
    if n < 0 {
      assert s[1..] == d;
    } else {
      assert s == d;
    }
  }

  lemma StoiToDecimal(n: int32)
    ensures Stoi(ToDecimal(n)) == Some(n)
  {
    ParseToDecimal(n);
  }

  lemma StollToDecimal(n: int64)
    ensures Stoll(ToDecimal(n)) == Some(n)
  {
    ParseToDecimal(n);
  }

  lemma AtoiToDecimal(n: int)
    ensures Atoi(ToDecimal(n)) == n
  {
    ParseToDecimal(n);
  }
}
