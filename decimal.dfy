/**
 * Decimal text of integers, as Kotlin's string templates write them
 * (`"$level"`), and as `String.toInt()` / `String.toLong()` read them back
 * (java.lang.Integer.parseInt / Long.parseLong, radix 10).
 */
module Decimal {
  import opened Wrappers
  import opened Numbers

  predicate IsDigit(c: char) {
    '0' <= c <= '9'
  }

  predicate AllDigits(s: string) {
    forall i :: 0 <= i < |s| ==> IsDigit(s[i])
  }

  function DigitChar(d: nat): (c: char)
    requires d < 10
    ensures IsDigit(c)
  {
    (48 + d) as char
  }

  function DigitValue(c: char): (d: nat)
    requires IsDigit(c)
    ensures d < 10 && DigitChar(d) == c
  {
    c as int - 48
  }

  /** Digits of `n`, most significant first, without leading zeros. */
  function NatToDecimal(n: nat): (s: string)
    ensures |s| >= 1 && AllDigits(s)
    ensures |s| > 1 ==> s[0] != '0'
    decreases n
  {
    if n < 10 then [DigitChar(n)] else NatToDecimal(n / 10) + [DigitChar(n % 10)]
  }

  /** `x.toString()`: a minus sign for negative values, then the digits of |x|. */
  function IntToDecimal(x: int): (s: string)
    ensures |s| >= 1
    ensures forall i :: 0 <= i < |s| ==> IsDigit(s[i]) || (i == 0 && s[i] == '-')
    ensures s[0] == '-' <==> x < 0
  {
    if x < 0 then "-" + NatToDecimal(-x) else NatToDecimal(x)
  }

  /** The value of a string of decimal digits. */
  function DigitsValue(s: string): nat
    requires AllDigits(s)
    decreases |s|
  {
    if s == [] then 0 else DigitsValue(s[..|s| - 1]) * 10 + DigitValue(s[|s| - 1])
  }

  /** How many leading characters are a sign (`-` or `+`). */
  function SignLength(s: string): nat
    requires s != []
  {
    if s[0] == '-' || s[0] == '+' then 1 else 0
  }

  /**
   * `parseInt`/`parseLong` in radix 10: an optional sign, at least one digit,
   * nothing else, and a value in [lo, hi]; anything else is a
   * NumberFormatException, modelled as None.
   */
  function ParseInteger(s: string, lo: int, hi: int): (r: Option<int>)
    ensures r.Some? ==> lo <= r.value <= hi
    ensures r.Some? ==> s != [] && |s| > SignLength(s) && AllDigits(s[SignLength(s)..])
    ensures r.Some? && s[0] == '-' ==> r.value <= 0
    ensures r.Some? && s[0] != '-' ==> r.value >= 0
    ensures r.Some? ==> r.value == (if s[0] == '-' then -1 else 1) * DigitsValue(s[SignLength(s)..])
    ensures s != [] && |s| > SignLength(s) && AllDigits(s[SignLength(s)..])
            && lo <= (if s[0] == '-' then -1 else 1) * DigitsValue(s[SignLength(s)..]) <= hi
            ==> r.Some?
  {
    if s == [] then None
    else
      var digits := s[SignLength(s)..];
      if digits == [] || !AllDigits(digits) then None
      else
        var n: int := DigitsValue(digits);
        var v := if s[0] == '-' then -n else n;
        if lo <= v <= hi then Some(v) else None
  }

  lemma {:induction false} NatToDecimalValue(n: nat)
    ensures DigitsValue(NatToDecimal(n)) == n
    decreases n
  {
    if n >= 10 {
      var s := NatToDecimal(n);
      NatToDecimalValue(n / 10);
      assert s[..|s| - 1] == NatToDecimal(n / 10);
    }
  }

  /** Reading back what `toString` wrote gives the same number, for every value in range. */
  lemma ParseIntegerRoundTrip(x: int, lo: int, hi: int)
    requires lo <= x <= hi
    ensures ParseInteger(IntToDecimal(x), lo, hi) == Some(x)
  {
    var s := IntToDecimal(x);
    if x < 0 {
      NatToDecimalValue(-x);
      assert s[1..] == NatToDecimal(-x);
    } else {
      NatToDecimalValue(x);
      assert s[0] != '-' && s[0] != '+';
      assert s[SignLength(s)..] == s;
    }
  }

  /** A lone sign, or any character that is not a digit after the sign, is rejected. */
  lemma ParseIntegerRejects(s: string, lo: int, hi: int, i: nat)
    requires s != [] && SignLength(s) <= i < |s| && !IsDigit(s[i])
    ensures ParseInteger(s, lo, hi) == None
  {
    var digits := s[SignLength(s)..];
    assert digits[i - SignLength(s)] == s[i];
  }

  /** A value outside [lo, hi], written in full, is rejected rather than wrapped. */
  lemma ParseIntegerOutOfRange(x: int, lo: int, hi: int)
    requires x < lo || hi < x
    ensures ParseInteger(IntToDecimal(x), lo, hi) == None
  {
    var s := IntToDecimal(x);
    if x < 0 {
      NatToDecimalValue(-x);
      assert s[1..] == NatToDecimal(-x);
    } else {
      NatToDecimalValue(x);
      assert s[SignLength(s)..] == s;
    }
  }

  /** Leading zeros, a `+` sign and a negative zero are all accepted, as `parseInt` accepts them. */
  lemma ParseIntegerLenient(lo: int, hi: int)
    requires lo <= 0 && 7 <= hi
    ensures ParseInteger("007", lo, hi) == Some(7)
    ensures ParseInteger("+5", lo, hi) == Some(5)
    ensures ParseInteger("-0", lo, hi) == Some(0)
  {
    var s := "007";
    assert SignLength(s) == 0 && s[0..] == s && AllDigits(s);
    assert s[..2] == "00" && "00"[..1] == "0" && "0"[..0] == "";
    assert DigitsValue("0") == 0 && DigitsValue("00") == 0 && DigitsValue(s) == 7;
    assert "+5"[1..] == "5" && "-0"[1..] == "0";
  }
}
