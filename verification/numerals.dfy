/** Decimal digit strings: the `\d+` groups of the patterns, `parseInt` of such
    a group, and the decimal text of a number in a template literal. */
module Numerals {

  predicate IsDigit(c: char)
  {
    '0' <= c <= '9'
  }

  predicate AllDigits(s: string)
  {
    forall k :: 0 <= k < |s| ==> IsDigit(s[k])
  }

  /** A string matched by `\d+`. */
  predicate IsNumeral(s: string)
  {
    |s| > 0 && AllDigits(s)
  }

  /** The canonical decimal text of a number: no leading zero except "0" itself. */
  predicate IsCanonicalNumeral(s: string)
  {
    IsNumeral(s) && (|s| > 1 ==> s[0] != '0')
  }

  function DigitValue(c: char): (d: nat)
    requires IsDigit(c)
    ensures d < 10
  {
    c as int - '0' as int
  }

  function DigitChar(d: nat): (c: char)
    requires d < 10
    ensures IsDigit(c) && DigitValue(c) == d
  {
    ('0' as int + d) as char
  }

  /** `parseInt` of a digit string, read left to right. */
  function ParseNat(s: string): nat
    requires AllDigits(s)
  {
    if |s| == 0 then 0 else ParseNat(s[..|s| - 1]) * 10 + DigitValue(s[|s| - 1])
  }

  /** The decimal text JavaScript produces for a non-negative integer. */
  function NatToString(n: nat): (r: string)
    ensures IsCanonicalNumeral(r)
    decreases n
  {
    if n < 10 then [DigitChar(n)] else NatToString(n / 10) + [DigitChar(n % 10)]
  }

  /** The decimal text JavaScript produces for an integer, with a leading `-`
      when it is negative. */
  function IntToString(i: int): (r: string)
    ensures |r| > 0
  {
    if i < 0 then "-" + NatToString(-i) else NatToString(i)
  }

  /** Reads back a signed decimal written by `IntToString`. */
  function ParseInt(s: string): int
    requires |s| > 0 && s[0] == '-' ==> AllDigits(s[1..])
    requires !(|s| > 0 && s[0] == '-') ==> AllDigits(s)
  {
    if |s| > 0 && s[0] == '-' then -(ParseNat(s[1..]) as int) else ParseNat(s)
  }

  /** Reading back the decimal text of a number gives the number. */
  lemma {:induction false} ParseNatToString(n: nat)
    ensures ParseNat(NatToString(n)) == n
    decreases n
  {
    if n >= 10 {
      var r := NatToString(n);
      ParseNatToString(n / 10);
      assert r[..|r| - 1] == NatToString(n / 10);
    }
  }

  /** Writing out the value of a canonical numeral gives the numeral back. */
  lemma {:induction false} NatToStringParse(s: string)
    requires IsCanonicalNumeral(s)
    ensures NatToString(ParseNat(s)) == s
    decreases |s|
  {
    if |s| > 1 {
      var p := s[..|s| - 1];
      assert IsCanonicalNumeral(p) by { assert p[0] == s[0]; }
      NatToStringParse(p);
      LeadingDigitBound(p);
      assert ParseNat(s) / 10 == ParseNat(p);
      assert ParseNat(s) % 10 == DigitValue(s[|s| - 1]);
      assert DigitChar(DigitValue(s[|s| - 1])) == s[|s| - 1];
      assert s == p + [s[|s| - 1]];
    } else {
      assert DigitChar(DigitValue(s[0])) == s[0];
    }
  }

  /** A canonical numeral of two or more digits has a value of at least ten. */
  lemma {:induction false} LeadingDigitBound(s: string)
    requires IsCanonicalNumeral(s)
    ensures |s| > 1 ==> ParseNat(s) >= 10
    ensures ParseNat(s) > 0 || s == "0"
    decreases |s|
  {
    if |s| > 1 {
      var p := s[..|s| - 1];
      assert p[0] == s[0];
      LeadingDigitBound(p);
    }
  }

  /** A numeral without its leading zeros, keeping a last `0`. */
  function StripLeadingZeros(s: string): (r: string)
    requires IsNumeral(s)
    ensures IsCanonicalNumeral(r)
  {
    if |s| > 1 && s[0] == '0' then StripLeadingZeros(s[1..]) else s
  }

  /** A leading zero does not change the value of a digit string. */
  lemma {:induction false} ParseNatLeadingZero(s: string)
    requires AllDigits(s)
    ensures ParseNat(['0'] + s) == ParseNat(s)
    decreases |s|
  {
    if |s| > 0 {
      var t := ['0'] + s;
      assert t[..|t| - 1] == ['0'] + s[..|s| - 1];
      ParseNatLeadingZero(s[..|s| - 1]);
    }
  }

  /** Stripping leading zeros keeps the value, so `parseInt("08")` is 8. */
  lemma {:induction false} StripLeadingZerosValue(s: string)
    requires IsNumeral(s)
    ensures ParseNat(StripLeadingZeros(s)) == ParseNat(s)
    decreases |s|
  {
    if |s| > 1 && s[0] == '0' {
      StripLeadingZerosValue(s[1..]);
      assert s == ['0'] + s[1..];
      ParseNatLeadingZero(s[1..]);
    }
  }

  /** The signed text reads back as the integer it was written from. */
  lemma IntToStringParse(i: int)
    ensures ParseInt(IntToString(i)) == i
  {
    if i < 0 {
      var r := IntToString(i);
      assert r[1..] == NatToString(-i);
      ParseNatToString(-i);
    } else {
      ParseNatToString(i);
    }
  }

  /** The text of an integer is a digit string after an optional minus sign,
      as `ParseInt` needs. */
  lemma IntToStringDigits(i: int)
    ensures var r := IntToString(i);
            && (|r| > 0 && r[0] == '-' ==> AllDigits(r[1..]))
            && (!(|r| > 0 && r[0] == '-') ==> AllDigits(r))
  {
    if i < 0 {
      assert IntToString(i)[1..] == NatToString(-i);
    } else {
      assert NatToString(i)[0] != '-';
    }
  }

  /** The end of the longest run of digits starting at `i`: the extent of a
      greedy `\d+` (or `\d*`) at that position. */
  function DigitRunEnd(s: string, i: nat): (k: nat)
    requires i <= |s|
    ensures i <= k <= |s|
    ensures AllDigits(s[i..k])
    ensures k < |s| ==> !IsDigit(s[k])
    decreases |s| - i
  {
    if i < |s| && IsDigit(s[i]) then DigitRunEnd(s, i + 1) else i
  }

  /** A run of digits that ends before a non-digit is the longest one. */
  lemma DigitRunEndUnique(s: string, i: nat, k: nat)
    requires i <= k <= |s|
    requires AllDigits(s[i..k])
    requires k < |s| ==> !IsDigit(s[k])
    ensures DigitRunEnd(s, i) == k
  {
  }
}
