/**
 * Decimal text of Java integers: String.valueOf(int) and Integer.valueOf(String),
 * the two conversions the rating code uses between a rating and the event's object.
 */
module Decimal {
  import opened Wrappers

  const MinInt32: int := -0x8000_0000
  const MaxInt32: int := 0x7fff_ffff

  /** A Java `int`. */
  type Int32 = x: int | MinInt32 <= x <= MaxInt32

  predicate IsDigit(c: char) { '0' <= c <= '9' }

  function DigitChar(d: nat): (c: char)
    requires d < 10
    ensures IsDigit(c)
  {
    ['0', '1', '2', '3', '4', '5', '6', '7', '8', '9'][d]
  }

  function DigitValue(c: char): (d: nat)
    requires IsDigit(c)
    ensures d < 10
  {
    c as int - '0' as int
  }

  lemma DigitRoundTrip(d: nat)
    requires d < 10
    ensures DigitValue(DigitChar(d)) == d
  {
  }

  /** Decimal digits of a natural number, without leading zeros. */
  function Digits(n: nat): (s: string)
    ensures |s| > 0 && forall i :: 0 <= i < |s| ==> IsDigit(s[i])
  {
    if n < 10 then [DigitChar(n)] else Digits(n / 10) + [DigitChar(n % 10)]
  }

  /** String.valueOf(int): a minus sign for negative numbers, then the digits. */
  function DecimalString(n: int): string
  {
    if n < 0 then "-" + Digits(-n) else Digits(n)
  }

  predicate AllDigits(s: string) { forall i :: 0 <= i < |s| ==> IsDigit(s[i]) }

  /** Value of a run of decimal digits, read most significant first. */
  function DigitsValue(s: string): nat
    requires AllDigits(s)
  {
    if s == [] then 0 else DigitsValue(s[..|s| - 1]) * 10 + DigitValue(s[|s| - 1])
  }

  /** Integer.valueOf's syntax: an optional '-' or '+' sign, then at least one digit. */
  predicate Numeral(s: string)
  {
    |s| > 0 && (IsDigit(s[0]) || ((s[0] == '-' || s[0] == '+') && |s| > 1))
    && forall i :: 0 < i < |s| ==> IsDigit(s[i])
  }

  /** The value a numeral denotes: its digits read in base ten, negated after '-'. */
  function NumeralValue(s: string): int
    requires Numeral(s)
  {
    if IsDigit(s[0]) then DigitsValue(s)
    else if s[0] == '-' then -(DigitsValue(s[1..]) as int)
    else DigitsValue(s[1..])
  }

  /**
   * Integer.valueOf(String): an optional '-' or '+' sign followed by at least one
   * digit, whose value fits in an int; anything else raises NumberFormatException,
   * modelled as None.
   */
  function ParseInt(s: string): (r: Option<int>)
    ensures r.Some? <==> Numeral(s) && MinInt32 <= NumeralValue(s) <= MaxInt32
    ensures r.Some? ==> r.value == NumeralValue(s)
    ensures r.Some? ==> MinInt32 <= r.value <= MaxInt32
  {
    if s == [] then None
    else
      var negative := s[0] == '-';
      var body := if s[0] == '-' || s[0] == '+' then s[1..] else s;
      if body == [] || !AllDigits(body) then None
      else
        var v: int := if negative then -(DigitsValue(body) as int) else DigitsValue(body);
        if MinInt32 <= v <= MaxInt32 then Some(v) else None
  }

  /** Integer.valueOf at the edges of the int range: the extremes parse, one past them does not. */
  lemma ParseIntRangeEdges()
    ensures ParseInt("2147483647") == Some(MaxInt32)
    ensures ParseInt("2147483648").None?
    ensures ParseInt("-2147483648") == Some(MinInt32)
    ensures ParseInt("-2147483649").None?
  {
    TenDigitValues();
    assert "-2147483648"[1..] == "2147483648" && "-2147483649"[1..] == "2147483649";
  }

  lemma TenDigitValues()
    ensures AllDigits("2147483647") && DigitsValue("2147483647") == 2147483647
    ensures AllDigits("2147483648") && DigitsValue("2147483648") == 2147483648
    ensures AllDigits("2147483649") && DigitsValue("2147483649") == 2147483649
  {
    NineDigitValue();
    assert "2147483647"[..9] == "214748364";
    assert "2147483648"[..9] == "214748364";
    assert "2147483649"[..9] == "214748364";
  }

  lemma NineDigitValue()
    ensures AllDigits("214748364") && DigitsValue("214748364") == 214748364
  {
    FiveDigitValue();
    assert "214748"[..5] == "21474";
    assert DigitsValue("214748") == 214748;
    assert "2147483"[..6] == "214748";
    assert DigitsValue("2147483") == 2147483;
    assert "21474836"[..7] == "2147483";
    assert DigitsValue("21474836") == 21474836;
    assert "214748364"[..8] == "21474836";
  }

  lemma FiveDigitValue()
    ensures AllDigits("21474") && DigitsValue("21474") == 21474
  {
    assert DigitsValue("2") == 2;
    assert "21"[..1] == "2";
    assert DigitsValue("21") == 21;
    assert "214"[..2] == "21";
    assert DigitsValue("214") == 214;
    assert "2147"[..3] == "214";
    assert DigitsValue("2147") == 2147;
    assert "21474"[..4] == "2147";
  }

  /** Integer.valueOf on text that is not a numeral, and on a '+' sign. */
  lemma ParseIntSyntax()
    ensures ParseInt("+7") == Some(7)
    ensures ParseInt("").None? && ParseInt("-").None? && ParseInt("+").None?
    ensures ParseInt("1a").None? && ParseInt("--1").None? && ParseInt(" 1").None?
  {
  }

  lemma {:induction false} DigitsValueOfDigits(n: nat)
    ensures AllDigits(Digits(n)) && DigitsValue(Digits(n)) == n
  {
    var s := Digits(n);
    if n < 10 {
      DigitRoundTrip(n);
    } else {
      DigitsValueOfDigits(n / 10);
      DigitRoundTrip(n % 10);
      assert s[..|s| - 1] == Digits(n / 10);
    }
  }

  /** Reading back the text String.valueOf writes gives the same int. */
  lemma ParseDecimalRoundTrip(n: Int32)
    ensures ParseInt(DecimalString(n)) == Some(n)
  {
    if n < 0 {
      ParseNegative(n);
    } else {
      ParseNonNegative(n);
    }
  }

  lemma ParseNegative(n: Int32)
    requires n < 0
    ensures ParseInt(DecimalString(n)) == Some(n)
  {
    var m: nat := -(n as int);
    DigitsValueOfDigits(m);
    ParseMinusDigits(Digits(m));
  }

  /** A minus sign followed by digits whose value fits reads back as the negated value. */
  lemma ParseMinusDigits(d: string)
    requires d != [] && AllDigits(d) && DigitsValue(d) <= -MinInt32
    ensures ParseInt("-" + d) == Some(-(DigitsValue(d) as int))
  {
    var s := "-" + d;
    assert s[0] == '-' && s[1..] == d;
  }

  lemma ParseNonNegative(n: Int32)
    requires n >= 0
    ensures ParseInt(DecimalString(n)) == Some(n)
  {
    var m: nat := n as int;
    DigitsValueOfDigits(m);
    var s := Digits(m);
    assert IsDigit(s[0]) && s[0] != '-' && s[0] != '+';
    assert DecimalString(n) == s;
  }

  /** Distinct ints have distinct decimal texts. */
  lemma DecimalStringInjective(a: Int32, b: Int32)
    ensures DecimalString(a) == DecimalString(b) <==> a == b
  {
    if DecimalString(a) == DecimalString(b) {
      ParseDecimalRoundTrip(a);
      ParseDecimalRoundTrip(b);
    }
  }
}
