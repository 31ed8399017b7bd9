/**
 * Decimal rendering of integers, as `std::to_string` produces it and as an
 * `int` is written to an output stream: an optional minus sign followed by
 * the digits, most significant first, without leading zeros.
 */
module Decimal {

  predicate IsDigit(c: char) {
    '0' <= c <= '9'
  }

  predicate IsDigits(s: string) {
    forall k :: 0 <= k < |s| ==> IsDigit(s[k])
  }

  function DigitChar(d: nat): (c: char)
    requires d < 10
    ensures IsDigit(c) && c as int - '0' as int == d
  {
    ('0' as int + d) as char
  }

  function DigitValue(c: char): (d: nat)
    requires IsDigit(c)
    ensures d < 10
  {
    c as int - '0' as int
  }

  /** The digits of `n`: at least one, and a leading zero only for zero itself. */
  function NatToString(n: nat): (s: string)
    ensures |s| >= 1 && IsDigits(s)
    ensures s[0] == '0' ==> n == 0 && |s| == 1
    decreases n
  {
    if n < 10 then [DigitChar(n)] else NatToString(n / 10) + [DigitChar(n % 10)]
  }

  /** Reads a string of digits back as a number. */
  function ParseNat(s: string): nat
    requires IsDigits(s)
    decreases |s|
  {
    if s == [] then 0 else ParseNat(s[..|s| - 1]) * 10 + DigitValue(s[|s| - 1])
  }

  predicate IsIntText(s: string) {
    (|s| >= 2 && s[0] == '-' && IsDigits(s[1..])) || IsDigits(s)
  }

  /**
   * The text `std::to_string` gives an integer: not empty, a leading `0`
   * only in `"0"` itself, and after a minus sign a first digit other than `0`.
   */
  predicate IsCanonicalIntText(s: string) {
    |s| >= 1 && IsIntText(s) &&
    (s[0] == '0' ==> s == "0") &&
    (s[0] == '-' ==> |s| >= 2 && s[1] != '0')
  }

  /** `std::to_string(i)` for an integer `i`: its canonical text, with a minus sign exactly when `i` is negative. */
  function IntToString(i: int): (s: string)
    ensures IsCanonicalIntText(s)
    ensures s[0] == '-' <==> i < 0
  {
    if i < 0 then
      var t := NatToString(-i);
      assert ("-" + t)[1..] == t;
      "-" + t
    else NatToString(i)
  }

  function ParseInt(s: string): int
    requires IsIntText(s)
  {
    if |s| >= 2 && s[0] == '-' && IsDigits(s[1..]) then -(ParseNat(s[1..]) as int) else ParseNat(s) as int
  }

  /** Reading the rendering of `n` gives `n` back. */
  lemma {:induction false} ParseNatToString(n: nat)
    ensures ParseNat(NatToString(n)) == n
    decreases n
  {
    if n >= 10 {
      var s := NatToString(n / 10);
      ParseNatToString(n / 10);
      var t := s + [DigitChar(n % 10)];
      assert NatToString(n) == t;
      assert t[..|t| - 1] == s;
    }
  }

  /** Reading the rendering of `i` gives `i` back, sign included. */
  lemma ParseIntToString(i: int)
    ensures IsIntText(IntToString(i)) && ParseInt(IntToString(i)) == i
  {
    var s := IntToString(i);
    if i < 0 {
      var t := NatToString(-i);
      assert s == "-" + t;
      assert s[0] == '-' && s[1..] == t;
      ParseNatToString(-i);
      assert ParseInt(s) == -(ParseNat(t) as int);
    } else {
      assert s == NatToString(i);
      assert IsDigit(s[0]);
      ParseNatToString(i);
      assert ParseInt(s) == ParseNat(s) as int;
    }
  }

  /** Distinct integers have distinct renderings. */
  lemma IntToStringInjective(i: int, j: int)
    ensures IntToString(i) == IntToString(j) ==> i == j
  {
    ParseIntToString(i);
    ParseIntToString(j);
  }

  /** A digit string with a first digit other than `0` stands for a positive number. */
  lemma {:induction false} ParseNatPositive(s: string)
    requires IsDigits(s) && |s| >= 1 && s[0] != '0'
    ensures ParseNat(s) >= 1
    decreases |s|
  {
    if |s| >= 2 {
      ParseNatPositive(s[..|s| - 1]);
    }
  }

  /** A digit string without leading zeros is the rendering of the number it stands for. */
  lemma {:induction false} NatToStringParseNat(s: string)
    requires IsDigits(s) && |s| >= 1 && (s[0] == '0' ==> |s| == 1)
    ensures NatToString(ParseNat(s)) == s
    decreases |s|
  {
    if |s| >= 2 {
      var init := s[..|s| - 1];
      NatToStringParseNat(init);
      ParseNatPositive(init);
      var n := ParseNat(s);
      assert n / 10 == ParseNat(init) && n % 10 == DigitValue(s[|s| - 1]);
      assert NatToString(n) == init + [s[|s| - 1]];
    }
  }

  /** Every canonical text is the rendering of the integer it stands for: `IntToString` produces exactly these texts. */
  lemma CanonicalTextIsRendering(s: string)
    requires IsCanonicalIntText(s)
    ensures IntToString(ParseInt(s)) == s
  {
    if s[0] == '-' {
      var t := s[1..];
      assert IsDigits(t) && t[0] == s[1];
      ParseNatPositive(t);
      NatToStringParseNat(t);
      assert s == "-" + t;
    } else {
      NatToStringParseNat(s);
    }
  }

  /** A rendering begins with a digit or with a minus sign. */
  lemma IntToStringFirstChar(i: int)
    ensures IsDigit(IntToString(i)[0]) || IntToString(i)[0] == '-'
  {
  }
}
