/**
  Decimal text of an integer, as Java's string concatenation `"..." + n`
  produces it (Integer.toString: an optional '-' and the digits, no leading
  zeros), together with a parser that reads it back.
 */
module Numerals {

  predicate IsDigit(c: char)
  {
    '0' <= c <= '9'
  }

  predicate AllDigits(s: string)
  {
    forall i | 0 <= i < |s| :: IsDigit(s[i])
  }

  /** The shape Integer.toString produces: '-' only in front, at least one digit. */
  predicate IsNumeral(s: string)
  {
    if |s| > 0 && s[0] == '-' then |s| > 1 && AllDigits(s[1..]) else |s| > 0 && AllDigits(s)
  }

  /** The exact text Integer.toString produces: no leading zero and no "-0". */
  predicate IsCanonicalNumeral(s: string)
  {
    && IsNumeral(s)
    && if s[0] == '-' then s[1] != '0' else (s[0] == '0' ==> |s| == 1)
  }

  function DigitChar(d: nat): (c: char)
    requires d < 10
    ensures IsDigit(c)
  {
    ('0' as int + d) as char
  }

  function DigitValue(c: char): (d: nat)
    requires IsDigit(c)
    ensures d < 10
    ensures DigitChar(d) == c
  {
    c as int - '0' as int
  }

  /** Decimal digits of `n`, most significant first. */
  function NatToString(n: nat): (s: string)
    ensures |s| >= 1
    ensures AllDigits(s)
    ensures |s| > 1 ==> s[0] != '0'
    ensures s[0] == '0' <==> n == 0
  {
    if n < 10 then [DigitChar(n)] else NatToString(n / 10) + [DigitChar(n % 10)]
  }

  /** Java's Integer.toString for an unbounded integer. */
  function IntToString(i: int): (s: string)
    ensures IsCanonicalNumeral(s)
    ensures s[0] == '-' <==> i < 0
  {
    if i < 0 then "-" + NatToString(-i) else NatToString(i)
  }

  function ParseNat(s: string): nat
    requires AllDigits(s)
  {
    if |s| == 0 then 0 else 10 * ParseNat(s[..|s| - 1]) + DigitValue(s[|s| - 1])
  }

  function ParseInt(s: string): int
    requires IsNumeral(s)
  {
    if s[0] == '-' then -(ParseNat(s[1..]) as int) else ParseNat(s)
  }

  lemma {:induction false} ParseNatToString(n: nat)
    ensures ParseNat(NatToString(n)) == n
    decreases n
  {
    var s := NatToString(n);
    if n < 10 {
      assert s[..|s| - 1] == [];
    } else {
      assert s[..|s| - 1] == NatToString(n / 10);
      ParseNatToString(n / 10);
    }
  }

  /** The decimal text of an integer reads back as that integer. */
  lemma ParseIntToString(i: int)
    ensures ParseInt(IntToString(i)) == i
  {
    var s := IntToString(i);
    if i < 0 {
      assert s[1..] == NatToString(-i);
      ParseNatToString(-i);
    } else {
      ParseNatToString(i);
    }
  }

  /** Digits without a leading zero are the decimal text of the number they denote. */
  lemma {:induction false} NatToStringOfParse(d: string)
    requires |d| > 0 && AllDigits(d) && (|d| > 1 ==> d[0] != '0')
    ensures NatToString(ParseNat(d)) == d
    decreases |d|
  {
    var last := DigitValue(d[|d| - 1]);
    if |d| == 1 {
      assert d[..0] == [];
      assert d == [DigitChar(last)];
    } else {
      var p := d[..|d| - 1];
      assert p[0] == d[0];
      NatToStringOfParse(p);
      var m := ParseNat(p);
      assert m != 0;
      assert ParseNat(d) / 10 == m && ParseNat(d) % 10 == last;
      assert d == p + [d[|d| - 1]];
    }
  }

  /**
    A canonical numeral is the only text of its value: together with
    ParseIntToString this pins the decimal text of an integer exactly.
   */
  lemma CanonicalNumeralUnique(s: string)
    requires IsCanonicalNumeral(s)
    ensures IntToString(ParseInt(s)) == s
  {
    if s[0] == '-' {
      var d := s[1..];
      NatToStringOfParse(d);
      assert s == "-" + d;
    } else {
      NatToStringOfParse(s);
    }
  }
}
